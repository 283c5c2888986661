// What every reachable session guarantees, read off `SessionValid`, which `RunLoop.Run` keeps.
module RunTheorems {
  import opened Prelude
  import opened RunModel
  import opened RunLog
  import opened Prompts
  import opened RunSummary
  import opened RunInvariant
  import opened Provenance
  import opened Exchanges
  import opened RunLoop

  lemma {:induction false} TraceEntry(runs: seq<RunRecord>, exchanges: seq<Exchange>, e: Exchange)
    requires SessionValid(runs, exchanges) && e in exchanges
    ensures PromptOk(e) && RecordedIn(e, runs)
  {
  }

  /** A fresh store is a valid session. */
  lemma {:induction false} EmptySessionIsValid()
    ensures SessionValid([], [])
  {
  }

  /** No step of the log answers the question. */
  ghost predicate Unanswered(steps: seq<Step>, question: Pending) {
    match question
    case MainQuestion(call) => !exists s :: s in steps && IsResultOf(s, call.id)
    case SkillQuestion(_, call) => !exists s :: s in steps && s.payload.SkillToolResult? && s.payload.id == call.id
  }

  /**
   * A waiting run is the last of its session. Its pending question was asked by its last step
   * and has no answer in the log.
   */
  lemma {:induction false} WaitingRunAsksLast(runs: seq<RunRecord>, exchanges: seq<Exchange>, r: nat)
    requires SessionValid(runs, exchanges)
    requires r < |runs| && runs[r].status == WaitingForHumanInput
    ensures r == |runs| - 1 && runs[r].steps != []
    ensures var steps := runs[r].steps;
            match LatestQuestion(steps, |steps|) {
              case None => false
              case Some(question) => AsksIn(question, steps[|steps| - 1]) && Unanswered(steps, question)
            }
  {
    var steps := runs[r].steps;
    WaitingRunIsPaused(runs, exchanges, r);
    hide SessionValid;
    hide SessionOk;
    hide TraceOk;
    hide Paused;
    hide AsksIn;
    hide Unanswered;
    hide LatestQuestion;
    PausedQuestion(steps);
    PausedIsUnanswered(steps, LatestQuestion(steps, |steps|).value);
  }

  lemma {:induction false} WaitingRunIsPaused(runs: seq<RunRecord>, exchanges: seq<Exchange>, r: nat)
    requires SessionValid(runs, exchanges)
    requires r < |runs| && runs[r].status == WaitingForHumanInput
    ensures r == |runs| - 1 && runs[r].steps != [] && Paused(runs[r].steps)
  {
    hide TraceOk;
    hide LogOk;
    hide Sourced;
    assert r == |runs| - 1;
  }

  lemma {:induction false} PausedIsUnanswered(steps: seq<Step>, question: Pending)
    requires steps != [] && Paused(steps) && AsksIn(question, steps[|steps| - 1])
    ensures Unanswered(steps, question)
  {
    hide Summarize;
    hide Calls;
    hide InSkill;
    hide CountResponses;
    hide Transcript;
    MentionedResults(steps);
    match question {
      case MainQuestion(call) =>
        assert call.id in IdSet(Calls(steps[|steps| - 1].payload.items));
        assert forall s :: s in steps && s.payload.ToolResult? ==> s.payload.id in ResolvedMain(steps);
      case SkillQuestion(invocation, call) =>
        assert forall s :: s in steps && s.payload.SkillToolResult? ==>
            (s.payload.invocationId, s.payload.id) in ResolvedSkill(steps);
    }
  }

  /**
   * At every main request no call has two results, and every recorded call is answered before
   * the next response exactly when `human_input` always came alone and every skill that paused
   * was the last call of its response.
   */
  lemma {:induction false} CallsArePairedExactly(runs: seq<RunRecord>, exchanges: seq<Exchange>, e: Exchange)
    requires SessionValid(runs, exchanges)
    requires e in exchanges && e.target == MainLoop
    ensures SingleResults(e.log)
    ensures Paired(e.log) <==> PausesLast(e.log)
  {
    ResultsMeaning(e.log);
    SettledMeansPaired(e.log);
    MisplacedMeaning(e.log);
  }

  const Question: ToolCall := ToolCall("a", None, HUMAN_INPUT_TOOL_NAME, Null)
  const Beside: ToolCall := ToolCall("b", None, "fetch", Null)

  /** `human_input` with another call beside it. */
  const TwoCalls: ModelReply := Reply(None, [CallChoice(Question), CallChoice(Beside)], "")

  /** The log after the reply and the answer to its question. */
  function AnsweredTwoCalls(request: string): seq<Step> {
    [Step(0, UserMessageKind, UserMessage(request)),
     Step(0, AssistantResponseKind, AssistantResponse(None, [CallItem(Question), CallItem(Beside)])),
     Step(0, ToolResultKind, ToolResult("a", None, InputJson("yes")))]
  }

  lemma {:induction false} TwoItems()
    ensures Usable(TwoCalls)
    ensures ItemsOf(TwoCalls.choice) == [CallItem(Question), CallItem(Beside)]
    ensures Calls(ItemsOf(TwoCalls.choice)) == [Question, Beside]
    ensures !IsExplicitId("a") && !IsExplicitId("b")
  {
    var choices, items := TwoCalls.choice, [CallItem(Question), CallItem(Beside)];
    assert choices[..1] == [CallChoice(Question)] && choices[..1][..0] == [];
    assert ItemsOf(choices[..1]) == [CallItem(Question)];
    assert items[..1] == [CallItem(Question)] && items[..1][..0] == [];
    assert Calls(items[..1]) == [Question];
    assert EXPLICIT_PREFIX[0] == 'j';
  }

  /** The shape of that log. */
  lemma {:induction false} AnsweredTwoCallsInParts(request: string)
    ensures Usable(TwoCalls)
    ensures var log := AnsweredTwoCalls(request);
            && |log| == 3 && log[..2] == log[..1] + [log[1]] && log == log[..1] + [log[1]] + [log[2]]
            && log[1].payload == AssistantResponse(None, ItemsOf(TwoCalls.choice))
            && log[1] == ResponseStep(0, MainLoop, TwoCalls)
            && log[2].run == 0 && log[2].kind == KindOf(log[2].payload) && log[2].payload.ToolResult? && IsResultOf(log[2], "a")
            && log[..1] == FirstSteps(0, request, Config("", [], [], []))
            && Names(log[..1]) == []
  {
    TwoItems();
    hide ItemsOf;
    var start := AnsweredTwoCalls(request)[..1];
    assert start[..0] == [];
    assert RequestedSkillNames(start).None?;
  }

  /** The run records them and may ask the model again. */
  lemma {:induction false} TwoCallsAreRecorded(request: string)
    ensures var log := AnsweredTwoCalls(request);
            && |log| == 3 && ReadyForModel(log[..1])
            && LogOk(log[..2]) && StepSourced(log[..1], request, log[1])
            && ReadyForModel(log) && StepSourced(log[..2], request, log[2])
  {
    TwoItems();
    AnsweredTwoCallsInParts(request);
    FirstStepsAreQuiet(0, request, Config("", [], [], []));
    assert IsHumanInput(Question) && Question in Calls(ItemsOf(TwoCalls.choice));
    hide AnsweredTwoCalls;
    hide FirstSteps;
    hide Calls;
    hide ItemsOf;
    hide LogOk;
    hide Summarize;
    hide IsExplicitId;
    hide Names;
    var log := AnsweredTwoCalls(request);
    ReplyIsSourced(log[..1], request, 0, MainLoop, TwoCalls);
    ResponseRecorded(log[..1], log[1]);
    MainAnswerRecorded(log[..2], log[2], Question);
  }

  lemma {:induction false} BesideIsUnanswered(request: string)
    ensures var log := AnsweredTwoCalls(request); |log| > 1 && ContainsToolCall(log[1], "b") && !Answered(log, 1, "b")
  {
    TwoItems();
    assert Calls(ItemsOf(TwoCalls.choice))[1].id == "b";
  }

  function FirstRun(request: string, steps: seq<Step>): seq<RunRecord> {
    [RunRecord(request, RunStatus.Running, steps)]
  }

  /** A main request of the first run. */
  function MainCall(log: seq<Step>, reply: ModelReply): (e: Exchange)
    ensures e.run == 0 && e.target == MainLoop && e.log == log && e.prior == [] && e.reply == reply
    ensures ReadyForModel(log) ==> PromptOk(e)
  {
    assert [] + log == log;
    Exchange(0, MainLoop, [], [], [], log, MainRequest([], log), reply)
  }

  /** The first reply of the first run joins the session. */
  lemma {:induction false} FirstReplyJoins(request: string, start: seq<Step>, reply: ModelReply)
    requires SessionOk(FirstRun(request, start)) && TraceOk([], FirstRun(request, start)) && ReadyForModel(start)
    requires Usable(reply) && LogOk(start + [ResponseStep(0, MainLoop, reply)])
    requires StepSourced(start, request, ResponseStep(0, MainLoop, reply))
    ensures var after := FirstRun(request, start + [ResponseStep(0, MainLoop, reply)]);
            SessionOk(after) && TraceOk([MainCall(start, reply)], after)
  {
    hide SessionOk;
    hide TraceOk;
    hide LogOk;
    hide StepSourced;
    hide PromptOk;
    hide Usable;
    hide ReadyForModel;
    hide ResponseStep;
    var runs, e := FirstRun(request, start), MainCall(start, reply);
    assert SessionSteps(runs[..0]) == [];
    ReplyJoinsTrace([], e, runs, 0);
    assert [] + [e] == [e];
    assert Appended(runs, 0, ResponseStep(0, MainLoop, reply)) == FirstRun(request, start + [ResponseStep(0, MainLoop, reply)]);
  }

  /** An answer joins the session. */
  lemma {:induction false} AnswerJoins(request: string, steps: seq<Step>, step: Step, exchanges: seq<Exchange>)
    requires SessionOk(FirstRun(request, steps)) && TraceOk(exchanges, FirstRun(request, steps))
    requires step.run == 0 && step.kind == KindOf(step.payload) && !step.payload.SkillsRequested?
    requires LogOk(steps + [step]) && StepSourced(steps, request, step)
    ensures SessionOk(FirstRun(request, steps + [step])) && TraceOk(exchanges, FirstRun(request, steps + [step]))
  {
    hide SessionOk;
    hide TraceOk;
    hide LogOk;
    hide StepSourced;
    SessionSurvivesStep(exchanges, FirstRun(request, steps), 0, step);
    assert Appended(FirstRun(request, steps), 0, step) == FirstRun(request, steps + [step]);
  }

  lemma {:induction false} ReadyIsOk(steps: seq<Step>)
    requires ReadyForModel(steps)
    ensures LogOk(steps)
  {
  }

  /** A run that records a reply and an answer and then loses its model is a valid session. */
  lemma {:induction false} AnsweredRunIsValid(request: string, start: seq<Step>, reply: ModelReply, step: Step)
    returns (runs: seq<RunRecord>, exchanges: seq<Exchange>)
    requires Written(0, RunRecord(request, RunStatus.Running, start)) && ReadyForModel(start) && Sourced(start, request)
    requires Usable(reply) && LogOk(start + [ResponseStep(0, MainLoop, reply)])
    requires StepSourced(start, request, ResponseStep(0, MainLoop, reply))
    requires step.run == 0 && step.kind == KindOf(step.payload) && !step.payload.SkillsRequested?
    requires ReadyForModel(start + [ResponseStep(0, MainLoop, reply)] + [step])
    requires StepSourced(start + [ResponseStep(0, MainLoop, reply)], request, step)
    ensures SessionValid(runs, exchanges) && |exchanges| == 2
    ensures exchanges[1].target == MainLoop && exchanges[1].log == start + [ResponseStep(0, MainLoop, reply)] + [step]
  {
    hide *;
    var asked := start + [ResponseStep(0, MainLoop, reply)];
    var e, f := MainCall(start, reply), MainCall(asked + [step], ModelError("unavailable", ""));
    NewSession(request, start);
    FirstReplyJoins(request, start, reply);
    ReadyIsOk(asked + [step]);
    AnswerJoins(request, asked, step, [e]);
    runs := FailedCall([e], f, request, asked + [step]);
    exchanges := [e] + [f];
  }

  /**
   * A session in which the main loop asks the model while a recorded call has no result: the
   * reply paused for a person with another call beside the question.
   */
  lemma {:induction false} UnpairedSession(request: string) returns (runs: seq<RunRecord>, exchanges: seq<Exchange>)
    ensures SessionValid(runs, exchanges) && |exchanges| == 2
    ensures exchanges[1].target == MainLoop && exchanges[1].log == AnsweredTwoCalls(request)
    ensures ContainsToolCall(exchanges[1].log[1], "b") && !Paired(exchanges[1].log)
  {
    hide *;
    var log := AnsweredTwoCalls(request);
    AnsweredTwoCallsInParts(request);
    TwoCallsAreRecorded(request);
    FirstStepsAreQuiet(0, request, Config("", [], [], []));
    BesideIsUnanswered(request);
    runs, exchanges := AnsweredRunIsValid(request, log[..1], TwoCalls, log[2]);
    IsUnpaired(log, 1, "b");
  }

  lemma {:induction false} IsUnpaired(steps: seq<Step>, i: nat, id: string)
    requires i < |steps| && ContainsToolCall(steps[i], id) && !Answered(steps, i, id)
    ensures !Paired(steps)
  {
  }

  /** A session whose first run has begun. */
  lemma {:induction false} NewSession(request: string, steps: seq<Step>)
    requires Written(0, RunRecord(request, RunStatus.Running, steps)) && ReadyForModel(steps) && Sourced(steps, request)
    ensures SessionOk(FirstRun(request, steps)) && TraceOk([], FirstRun(request, steps))
  {
    hide LogOk;
    hide Sourced;
    SessionStarts([], [], request, steps);
    assert [] + FirstRun(request, steps) == FirstRun(request, steps);
  }

  /** A failed call and the failure of its run end the session's only run. */
  lemma {:induction false} FailedCall(earlier: seq<Exchange>, f: Exchange, request: string, steps: seq<Step>)
    returns (runs: seq<RunRecord>)
    requires SessionOk(FirstRun(request, steps)) && TraceOk(earlier, FirstRun(request, steps))
    requires f.run == 0 && f.log == steps && f.prior == [] && PromptOk(f) && f.reply.ModelError?
    ensures SessionValid(runs, earlier + [f])
  {
    hide SessionOk;
    hide PromptOk;
    hide TraceOk;
    var before := FirstRun(request, steps);
    assert SessionSteps(before[..0]) == [];
    UnusableReplyJoinsTrace(earlier, f, before, 0);
    SessionSurvivesStatus(earlier + [f], before, 0, Failed);
    runs := before[0 := before[0].(status := Failed)];
  }

  /** No skill invocation ever records more than eight responses, whatever the pauses. */
  lemma {:induction false} SkillCapSpansPauses(runs: seq<RunRecord>, exchanges: seq<Exchange>, r: nat, id: string)
    requires SessionValid(runs, exchanges)
    requires r < |runs|
    ensures CountResponses(runs[r].steps, id) <= 8
  {
  }

  /** The invocation the log says was started under this id, with its configured skill. */
  ghost predicate Running(e: Exchange, id: string, invocation: SkillInvocation, skill: Skill) {
    InvocationStarted(e.log, id) == Some(invocation) && FindSkill(e.skills, invocation.skillName) == Some(skill)
  }

  /**
   * Whatever a skill subflow was sent is what a resume would rebuild at that moment from the log
   * and the configured skills alone, up to assistant message ids, and offers every tool but
   * `call_skill`. The log also holds the call that asked for exactly this skill and task.
   */
  lemma {:induction false} LiveSkillPromptEqualsReplay(runs: seq<RunRecord>, exchanges: seq<Exchange>, e: Exchange)
    returns (invocation: SkillInvocation, skill: Skill, call: ToolCall)
    requires SessionValid(runs, exchanges)
    requires e in exchanges && e.target.SkillLoop?
    ensures Running(e, e.target.invocation.id, invocation, skill)
    ensures e.target == SkillLoop(invocation, skill)
    ensures var replay := SkillMessages(e.context, e.prior, e.log, e.run, invocation, skill);
            && replay.Ok? && EraseIds(e.request.messages) == EraseIds(replay.value)
            && ShowsSkill(replay.value, e.context, e.prior, e.log, e.run, invocation, skill)
    ensures HasCall(e.log, call) && AsksFor(call, invocation)
    ensures Projects(e.context, e.request.tools, IsSkillTool, CarriesTool)
  {
    hide InSkill;
    hide SkillMessages;
    hide CountResponses;
    hide ShowsSkill;
    hide Projects;
    ContextIsCarried(e.context);
    TraceEntry(runs, exchanges, e);
    invocation, skill := e.target.invocation, e.target.skill;
    SkillMessagesShowSkill(e.context, e.prior, e.log, e.run, invocation, skill);
    LogIsSourced(runs, exchanges, e);
    call := StartHasCall(e.log, runs[e.run].request, invocation.id);
  }

  /** The log of every request is accounted for, as part of its run's log. */
  lemma {:induction false} LogIsSourced(runs: seq<RunRecord>, exchanges: seq<Exchange>, e: Exchange)
    requires SessionValid(runs, exchanges) && e in exchanges
    ensures e.run < |runs| && Sourced(e.log, runs[e.run].request)
  {
    hide PromptOk;
    hide SessionOk;
    hide Sourced;
    hide ResponseStep;
    TraceEntry(runs, exchanges, e);
    RunIsSourced(runs, e.run);
    assert runs[e.run].steps[..|e.log|] == e.log;
    SourcedPrefix(runs[e.run].steps, |e.log|, runs[e.run].request);
  }

  lemma {:induction false} RunIsSourced(runs: seq<RunRecord>, r: nat)
    requires SessionOk(runs) && r < |runs|
    ensures Sourced(runs[r].steps, runs[r].request)
  {
  }

  /**
   * Across a pause, with unchanged session context and skill definition, the first request after
   * the answer is for the invocation that was running before it, and is the last request before
   * it plus the pausing response and the answer.
   */
  lemma {:induction false} ResumeExtendsLastRequest(runs: seq<RunRecord>, exchanges: seq<Exchange>, e: Exchange, f: Exchange, input: string)
    requires SessionValid(runs, exchanges)
    requires e in exchanges && f in exchanges && e.target.SkillLoop? && f.target.SkillLoop?
    requires e.target.invocation.id == f.target.invocation.id
    requires var name := e.target.invocation.skillName; FindSkill(f.skills, name) == FindSkill(e.skills, name)
    requires f.run == e.run && f.context == e.context
    requires Usable(e.reply) && PausesSkill(ItemsOf(e.reply.choice))
    requires var question := Calls(ItemsOf(e.reply.choice))[0];
             f.log == e.log + [ResponseStep(e.run, e.target, e.reply)] +
                      [AnswerStep(e.run, SkillQuestion(e.target.invocation, question), input)]
    ensures f.target == e.target
    ensures AddsAnswer(EraseIds(e.request.messages), EraseIds(f.request.messages), ItemsOf(e.reply.choice), input)
  {
    TraceEntry(runs, exchanges, e);
    TraceEntry(runs, exchanges, f);
    PausedPrompts(e, f, input);
  }

  /**
   * Every main request holds the system prompts of its context and one message for every visible
   * step of the session with content, in order, each saying what its step recorded.
   */
  lemma {:induction false} MainRequestsShowTheirSession(runs: seq<RunRecord>, exchanges: seq<Exchange>, e: Exchange)
    requires SessionValid(runs, exchanges)
    requires e in exchanges && e.target == MainLoop
    ensures ShowsSession(e.request, e.context, e.prior + e.log)
    ensures e.run < |runs| && e.prior == Concat(StepsOf(runs[..e.run])) && e.log <= runs[e.run].steps
  {
    SessionStepsMeaning(if e.run < |runs| then runs[..e.run] else []);
    TraceEntry(runs, exchanges, e);
    MainRequestShowsSession(e.context, e.prior + e.log);
    hide ShowsSession;
  }

  /** Two sessions that differ in the answer to one question send different requests after it. */
  lemma {:induction false} AnswersReachRequests(runs: seq<RunRecord>, exchanges: seq<Exchange>, others: seq<RunRecord>, calls: seq<Exchange>,
                                                e: Exchange, f: Exchange, steps: seq<Step>, a: Step, b: Step, question: Pending,
                                                input: string, other: string)
    requires SessionValid(runs, exchanges) && e in exchanges && SessionValid(others, calls) && f in calls
    requires e.target == f.target && e.run == f.run && e.context == f.context && e.prior == f.prior
    requires e.log == steps + [a] && f.log == steps + [b]
    requires RecordsAnswer(a, e.run, question, input) && RecordsAnswer(b, e.run, question, other) && input != other
    requires match question {
               case MainQuestion(_) => e.target == MainLoop
               case SkillQuestion(invocation, _) => e.target.SkillLoop? && e.target.invocation == invocation
             }
    ensures e.request.messages != f.request.messages
  {
    TraceEntry(runs, exchanges, e);
    TraceEntry(others, calls, f);
    hide SessionValid;
    hide PromptOk;
    hide RecordsAnswer;
    AnswersReachTheModel(e, f, steps, a, b, question, input, other);
  }

  /** A call of this reply that the later log knows was recorded by this reply. */
  lemma {:induction false} CalledByReply(runs: seq<RunRecord>, exchanges: seq<Exchange>, e: Exchange, f: Exchange, call: ToolCall, held: ToolCall)
    requires SessionValid(runs, exchanges) && e in exchanges && f in exchanges
    requires e.target == MainLoop && Usable(e.reply) && f.run == e.run
    requires call in Calls(ItemsOf(e.reply.choice)) && HasCall(f.log, held) && held.id == call.id
    ensures held == call
    ensures e.log + [ResponseStep(e.run, MainLoop, e.reply)] <= f.log
    ensures call.id !in Summarize(e.log).recorded
  {
    TraceEntry(runs, exchanges, e);
    TraceEntry(runs, exchanges, f);
    RepliesAreRecorded(runs, exchanges, e);
    LogIsSourced(runs, exchanges, f);
    CurrentRunIsWritten(runs, e.run);
    hide PromptOk;
    hide SessionValid;
    hide Calls;
    hide Summarize;
    hide StepSourced;
    var steps, n := runs[e.run].steps, |e.log|;
    var i :| 0 <= i < |f.log| && HoldsCall(f.log[i], held);
    assert steps[i] == f.log[i] && HoldsCall(steps[n], call);
    RecordedOnce(steps, runs[e.run].request, i, held, n, call);
    assert StepSourced(steps[..n], runs[e.run].request, steps[n]);
    NewCall(e.log, runs[e.run].request, steps[n], call);
  }

  lemma {:induction false} NewCall(before: seq<Step>, request: string, step: Step, call: ToolCall)
    requires StepSourced(before, request, step) && HoldsCall(step, call)
    ensures call.id !in Summarize(before).recorded
  {
  }

  /**
   * Every request of a skill begins with the main request that called it, whatever was recorded
   * since, then the instructions of the configured skill and the task that the call names.
   */
  lemma {:induction false} SkillInheritsCallingRequest(runs: seq<RunRecord>, exchanges: seq<Exchange>, e: Exchange, f: Exchange, call: ToolCall)
    returns (invocation: SkillInvocation, skill: Skill)
    requires SessionValid(runs, exchanges)
    requires e in exchanges && f in exchanges && e.target == MainLoop && f.target.SkillLoop?
    requires f.run == e.run && f.context == e.context
    requires Usable(e.reply) && call in Calls(ItemsOf(e.reply.choice)) && call.id == f.target.invocation.id
    ensures AsksFor(call, invocation)
    ensures Running(f, call.id, invocation, skill)
    ensures Transcript(f.log, call.id).Ok?
    ensures EraseIds(f.request.messages) ==
            EraseIds(InjectInstructions(e.request.messages, skill.instructions) + [User(invocation.task)] +
                     Transcript(f.log, call.id).value)
  {
    hide ShowsSkill;
    hide Projects;
    hide SessionOk;
    hide TraceOk;
    hide HasCall;
    var held;
    invocation, skill, held := LiveSkillPromptEqualsReplay(runs, exchanges, f);
    TraceEntry(runs, exchanges, e);
    TraceEntry(runs, exchanges, f);
    SessionStepsBelong(runs, e.run);
    AsksForId(held, invocation);
    CalledByReply(runs, exchanges, e, f, call, held);
    hide SessionValid;
    hide RecordedIn;
    hide Calls;
    hide Summarize;
    hide InSkill;
    hide AsksFor;
    var response := ResponseStep(e.run, MainLoop, e.reply);
    assert ContainsToolCall(response, call.id);
    hide ContainsToolCall;
    SamePrior(runs, exchanges, e, f);
    InheritedPrompt(e, f, response, invocation, skill);
  }

  lemma {:induction false} SamePrior(runs: seq<RunRecord>, exchanges: seq<Exchange>, e: Exchange, f: Exchange)
    requires SessionValid(runs, exchanges) && e in exchanges && f in exchanges && e.run == f.run
    ensures e.prior == f.prior
  {
    TraceEntry(runs, exchanges, e);
    TraceEntry(runs, exchanges, f);
  }

  /** Every usable reply is recorded verbatim, as the first step after the log it was given for. */
  lemma {:induction false} RepliesAreRecorded(runs: seq<RunRecord>, exchanges: seq<Exchange>, e: Exchange)
    requires SessionValid(runs, exchanges)
    requires e in exchanges && Usable(e.reply)
    ensures e.run < |runs| && |e.log| < |runs[e.run].steps|
    ensures runs[e.run].steps[..|e.log|] == e.log
    ensures runs[e.run].steps[|e.log|] == ResponseStep(e.run, e.target, e.reply)
    ensures var payload := runs[e.run].steps[|e.log|].payload;
            && (payload.AssistantResponse? || payload.SkillAssistantResponse?)
            && payload.messageId == e.reply.messageId && Projects(e.reply.choice, payload.items, IsRecorded, Records)
  {
    hide Records;
    hide IsRecorded;
    hide PromptOk;
    hide SessionOk;
    ReplyIsTaken(e.reply.choice);
    hide Projects;
    assert (e.log + [ResponseStep(e.run, e.target, e.reply)])[|e.log|] == ResponseStep(e.run, e.target, e.reply);
  }

  // Explicit skills

  function ExplicitCallsOf(step: Step): seq<string> {
    if IsResponse(step) then ExplicitOnly(Ids(Calls(step.payload.items))) else []
  }

  function ExplicitResultsOf(step: Step): seq<string> {
    if step.payload.ToolResult? && IsExplicitId(step.payload.id) then [step.payload.id] else []
  }

  function CallParts(steps: seq<Step>): (parts: seq<seq<string>>)
    ensures |parts| == |steps|
  {
    seq(|steps|, i requires 0 <= i < |steps| => ExplicitCallsOf(steps[i]))
  }

  function ResultParts(steps: seq<Step>): (parts: seq<seq<string>>)
    ensures |parts| == |steps|
  {
    seq(|steps|, i requires 0 <= i < |steps| => ExplicitResultsOf(steps[i]))
  }

  /** The explicit calls and results of a log, step by step. */
  lemma {:induction false} ExplicitParts(steps: seq<Step>)
    ensures Summarize(steps).explicitCalls == Concat(CallParts(steps))
    ensures Summarize(steps).explicitResults == Concat(ResultParts(steps))
  {
    if steps != [] {
      var n := |steps| - 1;
      var front := steps[..n];
      ExplicitParts(front);
      ConcatSnoc(CallParts(front), ExplicitCallsOf(steps[n]));
      ConcatSnoc(ResultParts(front), ExplicitResultsOf(steps[n]));
      hide Concat;
      assert CallParts(steps) == CallParts(front) + [ExplicitCallsOf(steps[n])];
      assert ResultParts(steps) == ResultParts(front) + [ExplicitResultsOf(steps[n])];
    }
  }

  lemma {:induction false} ExplicitOnlyMeaning(ids: seq<string>)
    ensures forall id :: id in ExplicitOnly(ids) <==> id in ids && IsExplicitId(id)
  {
    if ids != [] {
      ExplicitOnlyMeaning(ids[1..]);
      assert ids == [ids[0]] + ids[1..];
    }
  }

  /** The k-th explicit skill is called by step `positions[k]` and by no other step. */
  ghost predicate CallsExactlyAt(steps: seq<Step>, positions: seq<nat>) {
    && (forall k :: 0 <= k < |positions| ==>
          positions[k] < |steps| && ContainsToolCall(steps[positions[k]], ExplicitSkillInvocationId(k)))
    && (forall i, k: nat :: 0 <= i < |steps| && ContainsToolCall(steps[i], ExplicitSkillInvocationId(k)) ==>
          k < |positions| && i == positions[k])
  }

  /** The k-th explicit skill is answered by step `positions[k]` and by no other step. */
  ghost predicate ResultsExactlyAt(steps: seq<Step>, positions: seq<nat>) {
    && (forall k :: 0 <= k < |positions| ==>
          positions[k] < |steps| && IsResultOf(steps[positions[k]], ExplicitSkillInvocationId(k)))
    && (forall i, k: nat :: 0 <= i < |steps| && IsResultOf(steps[i], ExplicitSkillInvocationId(k)) ==>
          k < |positions| && i == positions[k])
  }

  /** Located ids that are all different have exactly the positions given. */
  lemma {:induction false} LocatedExactly(parts: seq<seq<string>>, positions: seq<nat>, n: nat)
    requires Locates(parts, positions) && Concat(parts) == ExplicitIds(n)
    ensures |positions| == n
    ensures forall k: nat :: k < n ==> positions[k] < |parts| && ExplicitSkillInvocationId(k) in parts[positions[k]]
    ensures forall i, k: nat :: 0 <= i < |parts| && ExplicitSkillInvocationId(k) in parts[i] ==> k < n && i == positions[k]
  {
    hide Concat;
    hide ExplicitSkillInvocationId;
    forall i, k: nat | 0 <= i < |parts| && ExplicitSkillInvocationId(k) in parts[i]
      ensures k < n && i == positions[k]
    {
      var j :| 0 <= j < n && positions[j] == i && ExplicitIds(n)[j] == ExplicitSkillInvocationId(k);
      ExplicitIdsInjective(j, k);
    }
  }

  lemma {:induction false} CalledHere(step: Step, id: string)
    requires IsExplicitId(id)
    ensures ContainsToolCall(step, id) <==> id in ExplicitCallsOf(step)
  {
    if IsResponse(step) {
      var calls := Calls(step.payload.items);
      ExplicitOnlyMeaning(Ids(calls));
      hide Calls;
      hide ExplicitOnly;
      if ContainsToolCall(step, id) {
        var c :| c in calls && c.id == id;
        var j :| 0 <= j < |calls| && calls[j] == c;
        assert Ids(calls)[j] == id;
      }
    }
  }

  lemma {:induction false} ExactCalls(steps: seq<Step>, positions: seq<nat>, n: nat)
    requires Locates(CallParts(steps), positions) && Concat(CallParts(steps)) == ExplicitIds(n)
    ensures |positions| == n && CallsExactlyAt(steps, positions)
  {
    LocatedExactly(CallParts(steps), positions, n);
    hide Locates;
    hide Concat;
    hide ContainsToolCall;
    hide ExplicitCallsOf;
    hide ExplicitSkillInvocationId;
    forall i, k: nat | 0 <= i < |steps|
      ensures ContainsToolCall(steps[i], ExplicitSkillInvocationId(k)) <==>
              ExplicitSkillInvocationId(k) in CallParts(steps)[i]
    {
      ExplicitIdsAreExplicit(k);
      CalledHere(steps[i], ExplicitSkillInvocationId(k));
    }
  }

  lemma {:induction false} ExactResults(steps: seq<Step>, positions: seq<nat>, n: nat)
    requires Locates(ResultParts(steps), positions) && Concat(ResultParts(steps)) == ExplicitIds(n)
    ensures |positions| == n && ResultsExactlyAt(steps, positions)
  {
    LocatedExactly(ResultParts(steps), positions, n);
    hide Locates;
    hide Concat;
    hide ExplicitSkillInvocationId;
    hide IsExplicitId;
    forall i, k: nat | 0 <= i < |steps|
      ensures IsResultOf(steps[i], ExplicitSkillInvocationId(k)) <==>
              ExplicitSkillInvocationId(k) in ResultParts(steps)[i]
    {
      ExplicitIdsAreExplicit(k);
    }
  }

  lemma {:induction false} AllExplicitSkillsDone(steps: seq<Step>)
    requires ReadyForModel(steps)
    ensures Summarize(steps).explicitCalls == Summarize(steps).explicitResults == ExplicitIds(|Names(steps)|)
  {
  }

  /** Different ids cannot share a response that holds one call, nor a result. */
  lemma {:induction false} CallsIncrease(steps: seq<Step>, request: string, positions: seq<nat>)
    requires Sourced(steps, request) && CallsExactlyAt(steps, positions) && Nondecreasing(positions)
    ensures Increasing(positions)
    ensures forall k :: 0 <= k < |positions| ==> IsRequestedStep(Names(steps), request, steps[positions[k]], k)
  {
    hide Sourced;
    hide ContainsToolCall;
    hide IsRequestedStep;
    forall k | 0 <= k < |positions|
      ensures IsRequestedStep(Names(steps), request, steps[positions[k]], k)
    {
      RequestedCallAt(steps, request, positions[k], k);
    }
    forall i, j | 0 <= i < j < |positions|
      ensures positions[i] < positions[j]
    {
      if positions[i] == positions[j] {
        OneRequestedCall(Names(steps), request, steps[positions[i]], i, j);
      }
    }
  }

  lemma {:induction false} OneRequestedCall(names: seq<string>, request: string, step: Step, i: nat, j: nat)
    requires IsRequestedStep(names, request, step, i) && IsRequestedStep(names, request, step, j)
    ensures i == j
  {
    assert step.payload.items[0] == CallItem(ExplicitCall(i, names[i], request)) == CallItem(ExplicitCall(j, names[j], request));
    hide ExplicitSkillInvocationId;
    ExplicitIdsInjective(i, j);
  }

  lemma {:induction false} ResultsIncrease(steps: seq<Step>, positions: seq<nat>)
    requires ResultsExactlyAt(steps, positions) && Nondecreasing(positions)
    ensures Increasing(positions)
  {
    hide ExplicitSkillInvocationId;
    forall i, j | 0 <= i < j < |positions|
      ensures positions[i] < positions[j]
    {
      if positions[i] == positions[j] {
        ExplicitIdsInjective(i, j);
      }
    }
  }

  /** A requested skill starts with the name at its place and the request as its task. */
  lemma {:induction false} RequestedStart(steps: seq<Step>, request: string, position: nat, k: nat)
    requires Sourced(steps, request) && position < |steps| && IsRequestedStep(Names(steps), request, steps[position], k)
    requires InvocationStarted(steps, ExplicitSkillInvocationId(k)).Some?
    ensures var invocation := InvocationStarted(steps, ExplicitSkillInvocationId(k)).value;
            invocation.skillName == Names(steps)[k] && invocation.task == request
  {
    hide InvocationStarted;
    hide Sourced;
    hide Names;
    hide HoldsCall;
    hide AsksFor;
    hide ExplicitSkillInvocationId;
    var wanted := ExplicitCall(k, Names(steps)[k], request);
    RequestedStepHolds(Names(steps), request, steps[position], k);
    var call := StartHasCall(steps, request, wanted.id);
    StartHasId(steps, wanted.id);
    var i :| 0 <= i < |steps| && HoldsCall(steps[i], call);
    AsksForId(call, InvocationStarted(steps, wanted.id).value);
    RecordedOnce(steps, request, i, call, position, wanted);
    RequestedAsksFor(k, Names(steps)[k], request, InvocationStarted(steps, wanted.id).value);
  }

  lemma {:induction false} RequestedStepHolds(names: seq<string>, request: string, step: Step, k: nat)
    requires IsRequestedStep(names, request, step, k)
    ensures HoldsCall(step, ExplicitCall(k, names[k], request))
  {
    SingleCall(ExplicitCall(k, names[k], request));
  }

  lemma {:induction false} RequestedAsksFor(k: nat, name: string, request: string, invocation: SkillInvocation)
    requires AsksFor(ExplicitCall(k, name, request), invocation)
    ensures invocation.skillName == name && invocation.task == request
  {
  }

  lemma {:induction false} StartHasId(steps: seq<Step>, id: string)
    requires InvocationStarted(steps, id).Some?
    ensures InvocationStarted(steps, id).value.id == id
  {
    if InvocationStarted(steps[..|steps| - 1], id).Some? {
      StartHasId(steps[..|steps| - 1], id);
    }
  }

  /**
   * Whenever the main loop asks the model, every explicitly requested skill has exactly one
   * recorded call and exactly one result, in request order, over any pauses. Its call is a
   * response of its own, for the skill requested at its place with the run's request as the
   * task; if a subflow started for it, it was for that skill and task.
   */
  lemma {:induction false} ExplicitSkillsRunOnce(runs: seq<RunRecord>, exchanges: seq<Exchange>, e: Exchange)
    returns (calls: seq<nat>, results: seq<nat>)
    requires SessionValid(runs, exchanges)
    requires e in exchanges && e.target == MainLoop
    ensures |calls| == |results| == |Names(e.log)| && e.run < |runs|
    ensures Increasing(calls) && Increasing(results)
    ensures CallsExactlyAt(e.log, calls) && ResultsExactlyAt(e.log, results)
    ensures forall k :: 0 <= k < |calls| ==> IsRequestedStep(Names(e.log), runs[e.run].request, e.log[calls[k]], k)
    ensures forall k: nat :: k < |calls| && InvocationStarted(e.log, ExplicitSkillInvocationId(k)).Some? ==>
              var invocation := InvocationStarted(e.log, ExplicitSkillInvocationId(k)).value;
              invocation.skillName == Names(e.log)[k] && invocation.task == runs[e.run].request
  {
    TraceEntry(runs, exchanges, e);
    LogIsSourced(runs, exchanges, e);
    AllExplicitSkillsDone(e.log);
    ExplicitParts(e.log);
    calls := LocateAll(CallParts(e.log));
    results := LocateAll(ResultParts(e.log));
    hide SessionValid;
    hide PromptOk;
    hide RecordedIn;
    hide Summarize;
    hide Concat;
    hide Sourced;
    ExactCalls(e.log, calls, |Names(e.log)|);
    ExactResults(e.log, results, |Names(e.log)|);
    hide Locates;
    LocatesInOrder(CallParts(e.log), calls);
    LocatesInOrder(ResultParts(e.log), results);
    CallsIncrease(e.log, runs[e.run].request, calls);
    ResultsIncrease(e.log, results);
    hide CallsExactlyAt;
    hide ResultsExactlyAt;
    hide IsRequestedStep;
    forall k: nat | k < |calls| && InvocationStarted(e.log, ExplicitSkillInvocationId(k)).Some?
      ensures var invocation := InvocationStarted(e.log, ExplicitSkillInvocationId(k)).value;
              invocation.skillName == Names(e.log)[k] && invocation.task == runs[e.run].request
    {
      RequestedStart(e.log, runs[e.run].request, calls[k], k);
    }
  }

  /** The skills requested for a run stay the same while the session goes on. */
  lemma {:induction false} RequestedStay(before: seq<RunRecord>, after: seq<RunRecord>, r: nat, requested: seq<Skill>)
    requires KeepsHistory(before, after) && r < |before| && RecordsRequested(before[r].steps, requested)
    ensures RecordsRequested(after[r].steps, requested)
  {
  }

  /**
   * Whenever the main loop asks the model, each skill that was requested when the run started has
   * been called exactly once, in the order of the request, by its own name and with the request
   * as its task, and answered exactly once.
   */
  lemma {:induction false} RequestedSkillsRunOnce(runs: seq<RunRecord>, exchanges: seq<Exchange>, e: Exchange, requested: seq<Skill>)
    returns (calls: seq<nat>, results: seq<nat>)
    requires SessionValid(runs, exchanges)
    requires e in exchanges && e.target == MainLoop && e.run < |runs|
    requires RecordsRequested(runs[e.run].steps, requested)
    ensures |calls| == |results| == |requested|
    ensures Increasing(calls) && Increasing(results)
    ensures CallsExactlyAt(e.log, calls) && ResultsExactlyAt(e.log, results)
    ensures forall k :: 0 <= k < |requested| ==>
              IsCallFor(e.log[calls[k]], ExplicitSkillInvocationId(k), requested[k].name, runs[e.run].request)
  {
    TraceEntry(runs, exchanges, e);
    calls, results := ExplicitSkillsRunOnce(runs, exchanges, e);
    LogIsSourced(runs, exchanges, e);
    RequestedAreCalled(e.log, requested, runs[e.run].request);
    hide SessionValid;
    hide PromptOk;
    hide Sourced;
    hide ContainsToolCall;
    hide IsCallFor;
    hide ExplicitSkillInvocationId;
  }

  lemma {:induction false} LocatesInOrder(parts: seq<seq<string>>, positions: seq<nat>)
    requires Locates(parts, positions)
    ensures Nondecreasing(positions)
  {
  }
}
