// The run loop: the only writer of runs and steps.
module RunLoop {
  import opened Prelude
  import opened RunModel
  import opened RunLog
  import opened Prompts
  import opened RunSummary
  import opened RunInvariant
  import opened Provenance
  import opened Exchanges

  /** The session tables: runs with their ordered steps, and the static prompt context. */
  class Store {
    var runs: seq<RunRecord>
    var context: seq<ContextItem>

    constructor ()
      ensures runs == [] && context == []
    {
      runs, context := [], [];
    }

    method CreateRun(request: string) returns (run: nat)
      modifies this`runs
      ensures run == |old(runs)|
      ensures runs == old(runs) + [RunRecord(request, Running, [])]
    {
      run := |runs|;
      runs := runs + [RunRecord(request, Running, [])];
    }

    method AppendStep(run: nat, kind: StepKind, payload: StepPayload)
      requires run < |runs|
      modifies this`runs
      ensures runs == Appended(old(runs), run, Step(run, kind, payload))
    {
      runs := runs[run := runs[run].(steps := runs[run].steps + [Step(run, kind, payload)])];
    }

    method UpdateRunStatus(run: nat, status: RunStatus)
      requires run < |runs|
      modifies this`runs
      ensures runs == old(runs)[run := old(runs)[run].(status := status)]
    {
      runs := runs[run := runs[run].(status := status)];
    }

    method ReplaceSessionContext(items: seq<ContextItem>)
      modifies this`context
      ensures context == items
    {
      context := items;
    }
  }

  /**
   * The outside world. Replies and tool results are arbitrary, except that the ids of tool
   * calls are new in the run. `exchanges` and `toolRuns` are what the outside has seen.
   */
  class Provider {
    var exchanges: seq<Exchange>
    var toolRuns: seq<ToolRun>

    constructor ()
      ensures exchanges == [] && toolRuns == []
    {
      exchanges, toolRuns := [], [];
    }

    method Complete(run: nat, target: Target, skills: seq<Skill>, context: seq<ContextItem>, prior: seq<Step>, log: seq<Step>, request: Request)
      returns (reply: ModelReply)
      modifies this`exchanges
      ensures exchanges == old(exchanges) + [Exchange(run, target, skills, context, prior, log, request, reply)]
      ensures FreshReply(reply, Summarize(log).taken)
    {
      reply := *;
      if !FreshReply(reply, Summarize(log).taken) {
        reply := Aborted("");
      }
      exchanges := exchanges + [Exchange(run, target, skills, context, prior, log, request, reply)];
    }

    method ExecuteTool(name: string, arguments: Json) returns (result: Result<Json, string>)
      modifies this`toolRuns
      ensures toolRuns == old(toolRuns) + [ToolRun(name, arguments, result)]
    {
      result := *;
      toolRuns := toolRuns + [ToolRun(name, arguments, result)];
    }
  }

  datatype ToolCallOutcome = Done | WaitingForAnswer | CutOff

  datatype SkillOutcome = SkillCompleted(content: Json) | SkillWaiting | SkillFailed(message: string) | SkillCutOff

  datatype ResumeTarget = ResumeMain | ResumeSkill(invocation: SkillInvocation)

  /** Turns a reply into the items to record, the calls to execute and the answer text. */
  method AssistantTurnFromResponse(choice: seq<Choice>) returns (turn: Result<AssistantTurn, string>)
    ensures turn.Ok? <==> ImageChoice !in choice
    ensures turn.Ok? ==>
              && turn.value.items == ItemsOf(choice)
              && turn.value.toolCalls == Calls(turn.value.items)
              && turn.value.finalAnswer == TextOf(turn.value.items)
              && TakesTurn(choice, turn.value.items, turn.value.toolCalls, turn.value.finalAnswer)
  {
    var finalAnswer, toolCalls, items := "", [], [];
    for i := 0 to |choice|
      invariant ImageChoice !in choice[..i]
      invariant items == ItemsOf(choice[..i])
      invariant toolCalls == Calls(items)
      invariant finalAnswer == TextOf(items)
    {
      assert choice[..i + 1] == choice[..i] + [choice[i]];
      assert choice[..i + 1][..i] == choice[..i];
      match choice[i]
      case TextChoice(text) =>
        ItemsSnoc(items, TextItem(text));
        finalAnswer := finalAnswer + text;
        items := items + [TextItem(text)];
      case CallChoice(call) =>
        ItemsSnoc(items, CallItem(call));
        toolCalls := toolCalls + [call];
        items := items + [CallItem(call)];
      case ReasoningChoice(display) =>
        if display != "" {
          ItemsSnoc(items, ReasoningItem(display));
          items := items + [ReasoningItem(display)];
        }
      case ImageChoice =>
        return Err("LLM returned an unsupported image response");
    }
    assert choice[..|choice|] == choice;
    ReplyIsTaken(choice);
    turn := Ok(AssistantTurn(finalAnswer, toolCalls, items));
  }

  method LatestPendingHumanInput(steps: seq<Step>) returns (pending: Option<Pending>)
    ensures pending == LatestQuestion(steps, |steps|)
    ensures IsLatestQuestion(steps, pending)
  {
    LatestQuestionMeaning(steps);
    hide AsksAt;
    hide IsLatestAt;
    var resolvedMain: set<string>, resolvedSkill: set<(string, string)> := {}, {};
    for i := 0 to |steps|
      invariant resolvedMain == ResolvedMain(steps[..i])
      invariant resolvedSkill == ResolvedSkill(steps[..i])
    {
      assert steps[..i + 1] == steps[..i] + [steps[i]];
      match steps[i].payload {
        case ToolResult(id, _, _) => resolvedMain := resolvedMain + {id};
        case SkillToolResult(invocationId, id, _, _) => resolvedSkill := resolvedSkill + {(invocationId, id)};
        case _ =>
      }
      ResolvedSnoc(steps[..i], steps[i]);
    }
    assert steps[..|steps|] == steps;
    var n: nat := |steps|;
    while n > 0
      invariant n <= |steps|
      invariant LatestQuestion(steps, |steps|) == LatestQuestion(steps, n)
    {
      n := n - 1;
      match steps[n].payload {
        case AssistantResponse(_, items) =>
          var call := UnresolvedHumanInput(Calls(items), resolvedMain);
          if call.Some? {
            return Some(MainQuestion(call.value));
          }
        case SkillAssistantResponse(invocationId, _, items) =>
          var resolved := set r | r in resolvedSkill && r.0 == invocationId :: r.1;
          var call := UnresolvedHumanInput(Calls(items), resolved);
          var invocation := InvocationStarted(steps, invocationId);
          if call.Some? && invocation.Some? {
            return Some(SkillQuestion(invocation.value, call.value));
          }
        case _ =>
      }
    }
    pending := None;
  }

  lemma {:induction false} ResolvedSnoc(steps: seq<Step>, step: Step)
    ensures ResolvedMain(steps + [step]) == ResolvedMain(steps) +
            (if step.payload.ToolResult? then {step.payload.id} else {})
    ensures ResolvedSkill(steps + [step]) == ResolvedSkill(steps) +
            (if step.payload.SkillToolResult? then {(step.payload.invocationId, step.payload.id)} else {})
  {
  }

  method ParentMessagesBeforeSkillCall(base: seq<Message>, steps: seq<Step>, run: nat, invocationId: string)
    returns (parent: Result<seq<Message>, string>)
    ensures parent == ParentMessages(base, steps, run, invocationId)
  {
    assert Chat(steps[..0]) == [] && base + [] == base;
    hide ContainsToolCall;
    hide StepMessage;
    hide FirstCallIndex;
    hide Chat;
    var messages := base;
    for i := 0 to |steps|
      invariant messages == base + Chat(steps[..i])
      invariant forall k :: 0 <= k < i ==> !(steps[k].run == run && ContainsToolCall(steps[k], invocationId))
    {
      if steps[i].run == run && ContainsToolCall(steps[i], invocationId) {
        assert FirstCallIndex(steps, run, invocationId) == i;
        return Ok(messages);
      }
      ChatSnoc(steps[..i], steps[i]);
      assert steps[..i + 1] == steps[..i] + [steps[i]];
      if steps[i].VisibleToLlm() {
        var message := StepMessage(steps[i]);
        if message.Some? {
          messages := messages + [message.value];
        }
      }
      assert messages == base + (Chat(steps[..i]) + VisibleMessage(steps[i]));
    }
    parent := Err("parent assistant response for skill invocation was not found: " + invocationId);
  }

  method AppendSkillTranscript(messages: seq<Message>, invocationId: string, steps: seq<Step>)
    returns (extended: Result<seq<Message>, string>)
    ensures extended == match Transcript(steps, invocationId) {
                          case Ok(transcript) => Ok(messages + transcript)
                          case Err(message) => Err(message)
                        }
  {
    var result := messages;
    for i := 0 to |steps|
      invariant Transcript(steps[..i], invocationId).Ok?
      invariant result == messages + Transcript(steps[..i], invocationId).value
    {
      assert steps[..i + 1] == steps[..i] + [steps[i]];
      TranscriptSnoc(steps[..i], steps[i], invocationId);
      match TranscriptEntry(steps[i], invocationId) {
        case Err(message) =>
          TranscriptErrs(steps, i + 1, invocationId);
          return Err(message);
        case Ok(entry) =>
          result := result + entry;
      }
    }
    assert steps[..|steps|] == steps;
    extended := Ok(result);
  }

  /** An empty response spoils every longer transcript. */
  lemma {:induction false} TranscriptErrs(steps: seq<Step>, n: nat, id: string)
    requires n <= |steps|
    requires Transcript(steps[..n], id).Err?
    ensures Transcript(steps, id) == Transcript(steps[..n], id)
  {
    if n == |steps| {
      assert steps[..n] == steps;
    } else {
      var front := steps[..|steps| - 1];
      assert front[..n] == steps[..n];
      TranscriptErrs(front, n, id);
    }
  }

  method InjectSkillInstructions(messages: seq<Message>, instructions: string) returns (injected: seq<Message>)
    ensures injected == InjectInstructions(messages, instructions)
    ensures Injected(messages, instructions, injected)
  {
    InstructionsAreInjected(messages, instructions);
    for i := 0 to |messages|
      invariant forall k :: 0 <= k < i ==> !messages[k].System?
    {
      if messages[i].System? {
        InjectSpec(messages, i, instructions);
        assert messages[i] in messages;
        return messages[i := System(messages[i].content + "\n\n" + instructions)];
      }
    }
    injected := [System(instructions)] + messages;
  }

  function SkillNames(skills: seq<Skill>): seq<string> {
    seq(|skills|, i requires 0 <= i < |skills| => skills[i].name)
  }

  /** The log names the requested skills in the order of the request, if there are any. */
  predicate RecordsRequested(steps: seq<Step>, requested: seq<Skill>) {
    match RequestedSkillNames(steps)
    case None => requested == []
    case Some(names) => requested != [] && |names| == |requested| && forall k :: 0 <= k < |names| ==> names[k] == requested[k].name
  }

  /** The k-th explicit call of the log is for the k-th requested skill, with the request as its task, and alone in its response. */
  ghost predicate CallsRequested(steps: seq<Step>, requested: seq<Skill>, request: string) {
    forall i, k: nat :: 0 <= i < |steps| && ContainsToolCall(steps[i], ExplicitSkillInvocationId(k)) ==>
      k < |requested| && IsCallFor(steps[i], ExplicitSkillInvocationId(k), requested[k].name, request)
  }

  predicate IsCallFor(step: Step, id: string, name: string, task: string) {
    && step.payload.AssistantResponse?
    && |step.payload.items| == 1 && step.payload.items[0].CallItem?
    && var call := step.payload.items[0].call;
    call.id == id && call.name == CALL_SKILL_TOOL_NAME && ParseSkillArguments(call.arguments) == Some((name, task))
  }

  lemma {:induction false} RequestedAreCalled(steps: seq<Step>, requested: seq<Skill>, request: string)
    requires Sourced(steps, request) && RecordsRequested(steps, requested)
    ensures CallsRequested(steps, requested, request)
  {
    hide Sourced;
    hide ContainsToolCall;
    hide ExplicitSkillInvocationId;
    forall i, k: nat | 0 <= i < |steps| && ContainsToolCall(steps[i], ExplicitSkillInvocationId(k))
      ensures k < |requested| && IsCallFor(steps[i], ExplicitSkillInvocationId(k), requested[k].name, request)
    {
      RequestedCallAt(steps, request, i, k);
      assert IsRequestedCall(Names(steps), request, steps[i].payload.items, k);
    }
  }

  function ToolDefinitions(names: seq<string>): seq<ContextItem> {
    seq(|names|, i requires 0 <= i < |names| => ToolDefinition(names[i]))
  }

  /** The material is the system prompt, every configured tool in order, and `call_skill` when there are skills. */
  predicate HoldsConfig(context: seq<ContextItem>, config: Config) {
    && |context| == 1 + |config.tools| + (if config.skills == [] then 0 else 1)
    && context[0] == SystemPrompt(config.systemPrompt)
    && (forall k :: 0 <= k < |config.tools| ==> context[k + 1] == ToolDefinition(config.tools[k]))
    && (config.skills != [] ==> context[|config.tools| + 1] == ToolDefinition(CALL_SKILL_TOOL_NAME))
  }

  lemma {:induction false} ToolsOfDefinitions(context: seq<ContextItem>, names: seq<string>)
    requires |context| == |names| + 1 && context[0].SystemPrompt?
    requires forall k :: 0 <= k < |names| ==> context[k + 1] == ToolDefinition(names[k])
    ensures ContextTools(context) == names && ContextMessages(context) == [System(context[0].content)]
  {
    var n := |names|;
    if n == 0 {
      assert context[..0] == [];
    } else {
      ToolsOfDefinitions(context[..n], names[..n - 1]);
      assert names == names[..n - 1] + [names[n - 1]];
    }
  }

  /** A prompt begins with the configured system prompt alone and offers exactly the configured tools. */
  lemma {:induction false} ConfigIsShown(context: seq<ContextItem>, config: Config)
    requires HoldsConfig(context, config)
    ensures ContextMessages(context) == [System(config.systemPrompt)]
    ensures ContextTools(context) == config.tools + if config.skills == [] then [] else [CALL_SKILL_TOOL_NAME]
  {
    ToolsOfDefinitions(context, config.tools + if config.skills == [] then [] else [CALL_SKILL_TOOL_NAME]);
  }

  /** The static prompt material of a session. */
  function SessionContext(config: Config): (context: seq<ContextItem>)
    ensures HoldsConfig(context, config)
  {
    [SystemPrompt(config.systemPrompt)] + ToolDefinitions(config.tools) +
    if config.skills == [] then [] else [ToolDefinition(CALL_SKILL_TOOL_NAME)]
  }

  /** The steps a new run starts with. */
  function FirstSteps(run: nat, request: string, config: Config): seq<Step> {
    [Step(run, UserMessageKind, UserMessage(request))] +
    if config.requested == [] then []
    else [Step(run, SkillExecutionKind, SkillsRequested(SkillNames(config.requested)))]
  }

  lemma {:induction false} FirstStepsRequest(run: nat, request: string, config: Config)
    ensures RecordsRequested(FirstSteps(run, request, config), config.requested)
  {
    var steps := FirstSteps(run, request, config);
    assert steps[..1][..0] == [];
    assert RequestedSkillNames(steps[..1]) == None;
    if config.requested == [] {
      assert steps == steps[..1];
    }
  }

  lemma {:induction false} FirstStepsAreQuiet(run: nat, request: string, config: Config)
    ensures var steps := FirstSteps(run, request, config);
            && Quiet(steps) && Summarize(steps) == EmptySummary
            && Written(run, RunRecord(request, Running, steps)) && Sourced(steps, request)
  {
    var steps := FirstSteps(run, request, config);
    var first := [steps[0]];
    assert first[..0] == [];
    assert Summarize(first) == EmptySummary;
    assert forall id :: CountResponses(first, id) == 0;
    assert ExplicitIds(0) == [];
    if config.requested != [] {
      assert steps == first + [steps[1]];
      SummarizeSnoc(first, steps[1]);
      forall id {
        CountSnoc(first, steps[1], id);
      }
    } else {
      assert steps == first;
    }
  }

  /** The question belongs to the response recorded by this step. */
  predicate AsksIn(question: Pending, step: Step) {
    IsHumanInput(question.call) &&
    match question
    case MainQuestion(call) => step.payload.AssistantResponse? && call in Calls(step.payload.items)
    case SkillQuestion(invocation, call) =>
      step.payload.SkillAssistantResponse? && step.payload.invocationId == invocation.id && Calls(step.payload.items) == [call]
  }

  /** Where the run continues once the question is answered. */
  ghost predicate ContinuesAt(steps: seq<Step>, question: Pending, target: ResumeTarget) {
    match question
    case MainQuestion(_) => target == ResumeMain && ReadyForModel(steps)
    case SkillQuestion(invocation, _) =>
      && target == ResumeSkill(invocation)
      && InvocationStarted(steps, invocation.id) == Some(invocation)
      && InSkill(steps, invocation.id)
      && Reconciled(Summarize(steps), invocation.id)
      && Transcript(steps, invocation.id).Ok?
  }

  /** The pending question of a paused run is asked by its last step and still open. */
  lemma {:induction false} PausedQuestion(steps: seq<Step>)
    requires Paused(steps)
    ensures LatestQuestion(steps, |steps|).Some?
    ensures AsksIn(LatestQuestion(steps, |steps|).value, steps[|steps| - 1])
  {
    match steps[|steps| - 1].payload {
      case AssistantResponse(_, items) =>
        MainQuestionIsLast(steps);
        LastHumanInputExists(Calls(items));
      case SkillAssistantResponse(id, _, items) =>
        SkillQuestionIsLast(steps, id);
        assert Calls(items) == [Calls(items)[0]];
      case _ => assert false;
    }
  }

  lemma {:induction false} AnswerRecorded(steps: seq<Step>, run: nat, question: Pending, input: string)
    requires Paused(steps)
    requires LatestQuestion(steps, |steps|) == Some(question)
    ensures var after := steps + [AnswerStep(run, question, input)];
            && LogOk(after)
            && ContinuesAt(after, question, if question.MainQuestion? then ResumeMain else ResumeSkill(question.invocation))
  {
    var step := AnswerStep(run, question, input);
    PausedQuestion(steps);
    match steps[|steps| - 1].payload {
      case AssistantResponse(_, _) =>
        MainAnswerRecorded(steps, step, question.call);
      case SkillAssistantResponse(id, _, _) =>
        SkillQuestionIsLast(steps, id);
        SkillToolRecorded(steps, step, id);
        TranscriptSnoc(steps, step, id);
        StartStays(steps, [step], id);
      case _ => assert false;
    }
  }

  predicate WasWaiting(runs: seq<RunRecord>) {
    runs != [] && runs[|runs| - 1].status == WaitingForHumanInput
  }

  /** Requests, requested skills and recorded steps are never rewritten; only the last run can still grow. */
  ghost predicate KeepsHistory(before: seq<RunRecord>, after: seq<RunRecord>) {
    && |before| <= |after| <= |before| + 1
    && (forall r :: 0 <= r < |before| ==>
          && before[r].request == after[r].request
          && before[r].steps <= after[r].steps
          && RequestedSkillNames(before[r].steps) == RequestedSkillNames(after[r].steps))
    && (forall r :: 0 <= r < |before| && Final(before[r].status) ==> after[r] == before[r])
  }

  /** How many model calls the answer to a question may lead to, besides those of skills started later. */
  function OwnCalls(question: Pending): nat {
    if question.MainQuestion? then MAX_LOOP_ITERATIONS else 2 * MAX_LOOP_ITERATIONS
  }

  /**
   * What one request does: it answers the pending question if there is one, and otherwise
   * starts a run; model calls are bounded by the skills started meanwhile.
   */
  ghost predicate Served(before: Snapshot, after: Snapshot, request: string, config: Config,
                         accepts: (Json, string) -> bool, outcome: Outcome)
  {
    var n := |before.runs|;
    && ToolsOnly(after.toolRuns, |before.toolRuns|)
    && if WasWaiting(before.runs) then
      var steps := before.runs[n - 1].steps;
      match LatestQuestion(steps, |steps|)
      case None => false
      case Some(question) =>
        && AsksIn(question, steps[|steps| - 1])
        && (outcome.InvalidAnswer? <==> !accepts(question.call.arguments, request))
        && if outcome.InvalidAnswer? then after.runs == before.runs && after.exchanges == before.exchanges
           else
             && Progress(before.(context := SessionContext(config)), after, n - 1, OwnCalls(question))
             && steps + [AnswerStep(n - 1, question, request)] <= after.runs[n - 1].steps
             && RecordsAnswer(after.runs[n - 1].steps[|steps|], n - 1, question, request)
    else
      && !outcome.InvalidAnswer?
      && |after.runs| == n + 1
      && after.runs[..n] == before.runs
      && after.runs[n].request == request
      && FirstSteps(n, request, config) <= after.runs[n].steps
      && RecordsRequested(after.runs[n].steps, config.requested)
      && CallsRequested(after.runs[n].steps, config.requested, request)
      && before.exchanges <= after.exchanges
      && |after.exchanges| <= |before.exchanges| + MAX_LOOP_ITERATIONS + MAX_LOOP_ITERATIONS * Started(after, n)
  }

  lemma {:induction false} ServedByRefusal(before: Snapshot, after: Snapshot, request: string, config: Config,
                                           accepts: (Json, string) -> bool, outcome: Outcome)
    requires WasWaiting(before.runs) && outcome.InvalidAnswer?
    requires after.runs == before.runs && after.exchanges == before.exchanges && after.toolRuns == before.toolRuns
    requires var steps := before.runs[|before.runs| - 1].steps;
             match LatestQuestion(steps, |steps|) {
               case None => false
               case Some(question) => AsksIn(question, steps[|steps| - 1]) && !accepts(question.call.arguments, request)
             }
    ensures Served(before, after, request, config, accepts, outcome)
  {
  }

  lemma {:induction false} ServedByAnswer(before: Snapshot, after: Snapshot, request: string, config: Config,
                                          accepts: (Json, string) -> bool, outcome: Outcome, question: Pending)
    requires WasWaiting(before.runs) && !outcome.InvalidAnswer?
    requires var n := |before.runs|;
             var steps := before.runs[n - 1].steps;
             && LatestQuestion(steps, |steps|) == Some(question)
             && AsksIn(question, steps[|steps| - 1])
             && accepts(question.call.arguments, request)
             && Progress(before.(context := SessionContext(config)), after, n - 1, OwnCalls(question))
             && steps + [AnswerStep(n - 1, question, request)] <= after.runs[n - 1].steps
    ensures Served(before, after, request, config, accepts, outcome)
  {
  }

  lemma {:induction false} ServedByNewRun(before: Snapshot, started: Snapshot, after: Snapshot, request: string, config: Config,
                                          accepts: (Json, string) -> bool, outcome: Outcome)
    requires !WasWaiting(before.runs) && !outcome.InvalidAnswer?
    requires var n := |before.runs|;
             && |started.runs| == n + 1 && started.runs[..n] == before.runs
             && started.runs[n].request == request && started.runs[n].steps == FirstSteps(n, request, config)
             && started.exchanges == before.exchanges && started.toolRuns == before.toolRuns && Started(started, n) == 0
             && Progress(started, after, n, MAX_LOOP_ITERATIONS)
             && Sourced(after.runs[n].steps, request)
    ensures Served(before, after, request, config, accepts, outcome)
  {
    var n := |before.runs|;
    FirstStepsRequest(n, request, config);
    ProgressKeepsNames(started, after, n, MAX_LOOP_ITERATIONS);
    RequestedAreCalled(after.runs[n].steps, config.requested, request);
    hide FirstSteps;
    hide Started;
    hide Sourced;
    hide CallsRequested;
    hide RequestedSkillNames;
    ProgressKeepsSteps(started, after, n, MAX_LOOP_ITERATIONS);
  }

  lemma {:induction false} NewRunGrows(runs: seq<RunRecord>, record: RunRecord, step: Step)
    ensures Appended(runs + [record], |runs|, step) == runs + [record.(steps := record.steps + [step])]
  {
  }

  lemma {:induction false} NobodyWaits(runs: seq<RunRecord>, exchanges: seq<Exchange>)
    requires SessionValid(runs, exchanges)
    ensures !WasWaiting(runs) ==> forall r :: 0 <= r < |runs| ==> Final(runs[r].status)
  {
  }

  lemma {:induction false} ServedKeepsHistory(before: Snapshot, after: Snapshot, request: string, config: Config,
                                              accepts: (Json, string) -> bool, outcome: Outcome)
    requires SessionValid(before.runs, before.exchanges)
    requires Served(before, after, request, config, accepts, outcome)
    ensures KeepsHistory(before.runs, after.runs)
  {
    hide LogOk;
    hide TraceOk;
    hide Paused;
    hide LatestQuestion;
    hide AsksIn;
    hide Started;
    hide FirstSteps;
    hide SessionContext;
    var n := |before.runs|;
    if WasWaiting(before.runs) {
      forall r | 0 <= r < n - 1 && |after.runs| == n && after.runs[..n - 1] == before.runs[..n - 1]
        ensures after.runs[r] == before.runs[r]
      {
        assert after.runs[..n - 1][r] == before.runs[..n - 1][r];
      }
    } else {
      forall r | 0 <= r < n
        ensures after.runs[r] == before.runs[r]
      {
        assert after.runs[..n][r] == before.runs[r];
      }
    }
  }

  /** An execution that was not cut off leaves a valid session. */
  lemma {:induction false} EarlierRunsAreOver(runs: seq<RunRecord>)
    requires SessionOk(runs)
    ensures forall r :: 0 <= r < |runs| - 1 ==> Final(runs[r].status)
  {
  }

  /** What the last run's status says about how the execution ended. */
  lemma {:induction false} EndedStatus(s: Snapshot, run: nat, outcome: Outcome)
    requires Ended(s, run, outcome)
    ensures run + 1 == |s.runs| && SessionOk(s.runs) && TraceOk(s.exchanges, s.runs)
    ensures s.runs[run].status == Running <==> outcome == Interrupted
    ensures s.runs[run].status == WaitingForHumanInput ==> Paused(s.runs[run].steps)
  {
    hide SessionOk;
    hide TraceOk;
    hide Paused;
    hide Calls;
    hide TextOf;
  }

  lemma {:induction false} EndedIsValid(s: Snapshot, run: nat, outcome: Outcome)
    requires Ended(s, run, outcome)
    ensures outcome != Interrupted ==> SessionValid(s.runs, s.exchanges)
    ensures outcome == Interrupted ==> Executes(s, run)
  {
    hide Ended;
    hide SessionOk;
    hide TraceOk;
    hide Paused;
    EndedStatus(s, run, outcome);
    EarlierRunsAreOver(s.runs);
  }

  lemma {:induction false} FinalIsValid(runs: seq<RunRecord>, exchanges: seq<Exchange>)
    requires SessionOk(runs) && TraceOk(exchanges, runs)
    requires runs != [] && Final(runs[|runs| - 1].status)
    ensures SessionValid(runs, exchanges)
  {
  }

  /** Marking the run as canceled, with or without a checkpoint, leaves a valid session. */
  lemma {:induction false} CancellationIsValid(before: Snapshot, cut: Snapshot, after: Snapshot, request: string, config: Config,
                                               accepts: (Json, string) -> bool, canceled: seq<RunRecord>, step: Step)
    requires |cut.runs| > 0 && step.run == |cut.runs| - 1
    requires step.kind == CheckpointKind && step.payload.AssistantOutputCheckpoint?
    requires Executes(cut, step.run)
    requires canceled == cut.runs[step.run := cut.runs[step.run].(status := Canceled)]
    requires after == cut.(runs := canceled) || after == cut.(runs := Appended(canceled, step.run, step))
    requires SessionValid(before.runs, before.exchanges)
    requires Served(before, cut, request, config, accepts, Interrupted)
    ensures SessionValid(after.runs, after.exchanges)
    ensures KeepsHistory(before.runs, after.runs)
    ensures Served(before, after, request, config, accepts, Interrupted)
    ensures after.runs != [] && after.runs[|after.runs| - 1].status == Canceled
  {
    hide SessionOk;
    hide TraceOk;
    hide LogOk;
    hide Summarize;
    hide Served;
    hide KeepsHistory;
    hide SessionValid;
    var run := step.run;
    CurrentRunIsWritten(cut.runs, run);
    SessionSurvivesStatus(cut.exchanges, cut.runs, run, Canceled);
    NeutralStep(cut.runs[run].steps, step);
    SummarizeSnoc(cut.runs[run].steps, step);
    SessionSurvivesStep(cut.exchanges, canceled, run, step);
    GrewTransitive(cut.runs, canceled, Appended(canceled, run, step), run);
    FinalIsValid(after.runs, after.exchanges);
    CurrentRunIsWritten(after.runs, run);
    ServedSurvivesCheckpoint(before, cut, after, request, config, accepts);
    ServedKeepsHistory(before, after, request, config, accepts, Interrupted);
  }

  lemma {:induction false} ServedSurvivesCheckpoint(before: Snapshot, cut: Snapshot, after: Snapshot, request: string, config: Config,
                                                    accepts: (Json, string) -> bool)
    requires cut.runs != [] && Grew(cut.runs, after.runs, |cut.runs| - 1)
    requires after == cut.(runs := after.runs)
    requires Summarize(after.runs[|cut.runs| - 1].steps) == Summarize(cut.runs[|cut.runs| - 1].steps)
    requires Served(before, cut, request, config, accepts, Interrupted)
    requires Sourced(after.runs[|cut.runs| - 1].steps, after.runs[|cut.runs| - 1].request)
    ensures Served(before, after, request, config, accepts, Interrupted)
  {
    hide AsksIn;
    hide LatestQuestion;
    hide FirstSteps;
    hide RequestedSkillNames;
    hide CallsRequested;
    hide SessionContext;
    hide Sourced;
    var n, run := |before.runs|, |cut.runs| - 1;
    if WasWaiting(before.runs) {
      assert Progress(cut, after, run, 0);
      var steps := before.runs[run].steps;
      ProgressTransitive(before.(context := SessionContext(config)), cut, after, run,
                         OwnCalls(LatestQuestion(steps, |steps|).value), 0);
    } else {
      assert after.runs[..n] == cut.runs[..n];
      RequestedAreCalled(after.runs[n].steps, config.requested, request);
    }
  }

  /** What the main loop streamed, if anything, is the last step of the canceled run. */
  predicate Checkpointed(runs: seq<RunRecord>, streams: seq<string>, since: nat) {
    && runs != []
    && runs[|runs| - 1].status == Canceled
    && since <= |streams|
    && (Concat(streams[since..]) != "" ==>
          var steps := runs[|runs| - 1].steps;
          steps != [] && steps[|steps| - 1].payload == AssistantOutputCheckpoint(Concat(streams[since..])))
  }

  predicate HasToolResult(steps: seq<Step>, id: string) {
    exists s :: s in steps && IsResultOf(s, id)
  }

  /** Between responses the explicit skills with a result are exactly the first ones. */
  lemma {:induction false} ExplicitProgress(steps: seq<Step>)
    requires Quiet(steps)
    ensures |Summarize(steps).explicitCalls| <= |Names(steps)|
    ensures forall k: nat :: HasToolResult(steps, ExplicitSkillInvocationId(k)) <==> k < |Summarize(steps).explicitCalls|
  {
    var u := Summarize(steps);
    forall k: nat
      ensures HasToolResult(steps, ExplicitSkillInvocationId(k)) <==> k < |u.explicitCalls|
    {
      var id := ExplicitSkillInvocationId(k);
      assert IsExplicitId(id) by {
        assert EXPLICIT_PREFIX <= id;
      }
      ExplicitResultsMeaning(steps, id);
      if id in u.explicitCalls {
        var j :| 0 <= j < |u.explicitCalls| && u.explicitCalls[j] == id;
        ExplicitIdsInjective(j, k);
      }
      if k < |u.explicitCalls| {
        assert u.explicitCalls[k] == id;
      }
    }
  }

  lemma {:induction false} ExplicitResultsMeaning(steps: seq<Step>, id: string)
    requires IsExplicitId(id)
    ensures id in Summarize(steps).explicitResults <==> HasToolResult(steps, id)
  {
    if steps != [] {
      var front := steps[..|steps| - 1];
      ExplicitResultsMeaning(front, id);
      assert steps == front + [steps[|steps| - 1]];
      assert HasToolResult(steps, id) <==> HasToolResult(front, id) || IsResultOf(steps[|steps| - 1], id);
    }
  }

  lemma {:induction false} CountIsCapped(steps: seq<Step>, id: string)
    requires LogOk(steps)
    ensures CountResponses(steps, id) <= MAX_LOOP_ITERATIONS
  {
  }

  /** A completed subflow reports the text of its last response, which called no tool. */
  ghost predicate SkillSummary(steps: seq<Step>, id: string, skillName: string, content: Json) {
    && steps != []
    && steps[|steps| - 1].payload.SkillAssistantResponse?
    && steps[|steps| - 1].payload.invocationId == id
    && Calls(steps[|steps| - 1].payload.items) == []
    && IsReport(content, skillName, TextOf(steps[|steps| - 1].payload.items))
  }

  /** What a subflow leaves in the log, by the way it ended; the parent's calls are as they were unless it waits. */
  ghost predicate SubflowEnds(u: Summary, log: seq<Step>, invocation: SkillInvocation, outcome: SkillOutcome) {
    var v := Summarize(log);
    && v.startCount == u.startCount
    && v.explicitCalls == u.explicitCalls
    && (if outcome == SkillWaiting then PausedSkill(log, invocation.id) else SameLedger(u, v))
    && (outcome.SkillCompleted? ==> SkillSummary(log, invocation.id, invocation.skillName, outcome.content))
  }

  /** The reply that ends a subflow. */
  predicate EndsByReply(outcome: SkillOutcome, reply: ModelReply) {
    match outcome
    case SkillFailed(_) => FailsSubflow(reply)
    case SkillCutOff => reply.Aborted?
    case _ => true
  }

  /** A response without calls completes the subflow. */
  lemma {:induction false} CompletionEnds(u: Summary, log: seq<Step>, items: seq<ResponseItem>, invocation: SkillInvocation)
    requires log != [] && log[|log| - 1].payload.SkillAssistantResponse?
    requires log[|log| - 1].payload.invocationId == invocation.id && log[|log| - 1].payload.items == items
    requires Calls(items) == [] && SkillResponseEffect(u, Summarize(log), items, invocation.id)
    ensures SubflowEnds(u, log, invocation, SkillCompleted(SkillResultJson(invocation.skillName, TextOf(items))))
  {
    hide Summarize;
    hide Calls;
    hide TextOf;
  }

  lemma {:induction false} ReplyEnds(outcome: SkillOutcome, reply: ModelReply)
    requires outcome.SkillFailed? ==> FailsSubflow(reply)
    requires outcome.SkillCutOff? ==> reply.Aborted?
    ensures EndsByReply(outcome, reply)
  {
  }

  lemma {:induction false} MisuseFails(message: string, reply: ModelReply)
    requires reply.Reply? && Misused(Calls(ItemsOf(reply.choice)))
    ensures EndsByReply(SkillFailed(message), reply)
  {
  }

  lemma {:induction false} SubflowEndsFrom(u: Summary, w: Summary, log: seq<Step>, invocation: SkillInvocation, outcome: SkillOutcome)
    requires SameLedger(u, w) && SubflowEnds(w, log, invocation, outcome)
    ensures SubflowEnds(u, log, invocation, outcome)
  {
    hide Summarize;
    hide PausedSkill;
    hide SkillSummary;
  }

  lemma {:induction false} CappedSubflowEnds(u: Summary, log: seq<Step>, invocation: SkillInvocation, outcome: SkillOutcome)
    requires SameLedger(u, Summarize(log)) && outcome.SkillFailed?
    ensures SubflowEnds(u, log, invocation, outcome)
  {
    hide Summarize;
  }

  lemma {:induction false} NothingMentioned(u: Summary, id: string)
    ensures MentionsOnlyNew(u, u, id)
  {
  }

  lemma {:induction false} MentionsTransitive(u: Summary, v: Summary, w: Summary, id: string)
    requires MentionsOnlyNew(u, v, id) && MentionsOnlyNew(v, w, id)
    ensures MentionsOnlyNew(u, w, id)
  {
  }

  /** A skill call that reports an error has bad arguments, names no skill, or its subflow failed. */
  ghost predicate SkillCallFails(call: ToolCall, skills: seq<Skill>, log: seq<Step>, exchanges: seq<Exchange>, since: nat) {
    match ParseSkillArguments(call.arguments)
    case None => true
    case Some((name, _)) =>
      FindSkill(skills, name).None? || SubflowFails(exchanges, since, CountResponses(log, call.id))
  }

  /**
   * The result recorded for a call: the output of the tool run with its name and arguments, what
   * its skill subflow reported, or the error of a skill call that failed.
   */
  ghost predicate ResultOf(call: ToolCall, skills: seq<Skill>, before: seq<Step>, after: seq<Step>,
                           ranBefore: seq<ToolRun>, ran: seq<ToolRun>, exchanges: seq<Exchange>, since: nat) {
    && after != []
    && after[|after| - 1].payload.ToolResult?
    && var result := after[|after| - 1].payload;
    && result.id == call.id && result.callId == call.callId
    && if call.name != CALL_SKILL_TOOL_NAME then
         && |after| == |before| + 1
         && |ran| == |ranBefore| + 1
         && var toolRun := ran[|ran| - 1];
         toolRun.name == call.name && toolRun.arguments == call.arguments && IsToolContent(toolRun.result, result.result)
       else
         || (&& SkillCallFails(call, skills, after[..|after| - 1], exchanges, since)
             && exists message :: IsError(result.result, message))
         || (&& ParseSkillArguments(call.arguments).Some?
             && SkillSummary(after[..|after| - 1], call.id, ParseSkillArguments(call.arguments).value.0, result.result))
  }

  /** The result recorded for a resumed skill: what its subflow reported, or an error when it failed. */
  ghost predicate ResumedResultOf(invocation: SkillInvocation, skills: seq<Skill>, after: seq<Step>,
                                  exchanges: seq<Exchange>, since: nat) {
    && after != []
    && after[|after| - 1].payload.ToolResult?
    && var result, log := after[|after| - 1].payload, after[..|after| - 1];
    && result.id == invocation.id && result.callId == invocation.callId
    && (|| SkillSummary(log, invocation.id, invocation.skillName, result.result)
        || (&& ResumeFails(invocation, skills, log, exchanges, since)
            && exists message :: IsError(result.result, message)))
  }

  /** A resumed skill fails when it no longer exists or its subflow fails. */
  ghost predicate ResumeFails(invocation: SkillInvocation, skills: seq<Skill>, log: seq<Step>,
                              exchanges: seq<Exchange>, since: nat) {
    FindSkill(skills, invocation.skillName).None? || SubflowFails(exchanges, since, CountResponses(log, invocation.id))
  }

  /** What became of a skill call: nothing, or its recorded start and model calls for exactly that skill and task. */
  ghost predicate SkillRan(call: ToolCall, skills: seq<Skill>, run: nat, before: seq<Step>, after: seq<Step>,
                           exchanges: seq<Exchange>, since: nat) {
    match ParseSkillArguments(call.arguments)
    case None => after == before && |exchanges| == since
    case Some((name, task)) =>
      match FindSkill(skills, name)
      case None => after == before && |exchanges| == since
      case Some(skill) =>
        && before + [Step(run, SkillExecutionKind, SkillStarted(call.id, call.callId, name, task))] <= after
        && AskedFor(exchanges, since, skills, SkillInvocation(call.id, call.callId, name, task), skill)
  }

  /** One call took the run from one moment to the next, and got its result. */
  ghost predicate CallExecuted(call: ToolCall, skills: seq<Skill>, run: nat, before: Snapshot, after: Snapshot) {
    && Progress(before, after, run, 0)
    && ResultOf(call, skills, before.runs[run].steps, after.runs[run].steps, before.toolRuns, after.toolRuns,
                after.exchanges, |before.exchanges|)
  }

  /** The calls ran one after the other. */
  ghost predicate CallsExecuted(calls: seq<ToolCall>, skills: seq<Skill>, run: nat, states: seq<Snapshot>) {
    && |states| == |calls| + 1
    && forall i {:trigger calls[i]} :: 0 <= i < |calls| ==> CallExecuted(calls[i], skills, run, states[i], states[i + 1])
  }

  lemma {:induction false} NothingExecuted(skills: seq<Skill>, run: nat, state: Snapshot)
    ensures CallsExecuted([], skills, run, [state])
  {
  }

  lemma {:induction false} OneMoreExecuted(calls: seq<ToolCall>, n: nat, skills: seq<Skill>, run: nat, states: seq<Snapshot>, state: Snapshot)
    requires n < |calls| && |states| == n + 1 && CallsExecuted(calls[..n], skills, run, states)
    requires CallExecuted(calls[n], skills, run, states[n], state)
    ensures CallsExecuted(calls[..n + 1], skills, run, states + [state])
  {
    hide CallExecuted;
    var all, more := states + [state], calls[..n + 1];
    forall i | 0 <= i < |more|
      ensures CallExecuted(more[i], skills, run, all[i], all[i + 1])
    {
      if i < n {
        assert more[i] == calls[..n][i];
      }
    }
  }

  lemma {:induction false} ProgressKeepsCall(a: Snapshot, b: Snapshot, run: nat, call: ToolCall)
    requires Progress(a, b, run, 0) && HasCall(a.runs[run].steps, call)
    ensures HasCall(b.runs[run].steps, call)
  {
    HasCallStays(a, b, run, call);
  }

  lemma {:induction false} LogGrew(a: Snapshot, b: Snapshot, run: nat)
    requires Advanced(a, b, run)
    ensures run < |a.runs| && run < |b.runs| && a.runs[run].steps <= b.runs[run].steps
  {
  }

  lemma {:induction false} AskedForNothing(exchanges: seq<Exchange>, skills: seq<Skill>, invocation: SkillInvocation, skill: Skill)
    ensures AskedFor(exchanges, |exchanges|, skills, invocation, skill)
  {
  }

  lemma {:induction false} HasCallsOfLast(steps: seq<Step>)
    requires steps != [] && steps[|steps| - 1].payload.AssistantResponse?
    ensures forall c :: c in Calls(steps[|steps| - 1].payload.items) ==> HasCall(steps, c)
  {
    hide Calls;
    forall c | c in Calls(steps[|steps| - 1].payload.items)
      ensures HasCall(steps, c)
    {
      assert HoldsCall(steps[|steps| - 1], c);
    }
  }

  lemma {:induction false} NoQuestions(calls: seq<ToolCall>)
    requires !HasHumanInput(calls)
    ensures forall c :: c in calls ==> !IsHumanInput(c)
  {
  }

  lemma {:induction false} SkillStepIsSourced(steps: seq<Step>, request: string, step: Step)
    requires step.payload.SkillAssistantResponse? || step.payload.SkillToolResult? || step.payload.ToolResult?
    ensures StepSourced(steps, request, step)
  {
  }

  lemma {:induction false} CutOffLater(exchanges: seq<Exchange>, since: nat, earlier: nat)
    requires earlier <= since
    ensures CutOffBy(exchanges, since) ==> CutOffBy(exchanges, earlier)
  {
  }

  // Requested skills

  /** The requested skills are called in order, and each call is for the skill at its place, with the request as its task. */
  ghost predicate RequestedInOrder(steps: seq<Step>, request: string) {
    && Summarize(steps).explicitCalls == ExplicitIds(|Summarize(steps).explicitCalls|)
    && forall i, k: nat :: 0 <= i < |steps| && ContainsToolCall(steps[i], ExplicitSkillInvocationId(k)) ==>
         IsRequestedStep(Names(steps), request, steps[i], k)
  }

  lemma {:induction false} LogIsInOrder(steps: seq<Step>, request: string)
    requires LogOk(steps) && Sourced(steps, request)
    ensures RequestedInOrder(steps, request)
  {
    hide Sourced;
    hide Summarize;
    hide ExplicitSkillInvocationId;
    hide ContainsToolCall;
    hide IsRequestedStep;
    forall i, k: nat | 0 <= i < |steps| && ContainsToolCall(steps[i], ExplicitSkillInvocationId(k))
      ensures IsRequestedStep(Names(steps), request, steps[i], k)
    {
      RequestedCallAt(steps, request, i, k);
    }
  }

  lemma {:induction false} SessionIsInOrder(runs: seq<RunRecord>, run: nat)
    requires SessionOk(runs) && run < |runs|
    ensures RequestedInOrder(runs[run].steps, runs[run].request)
  {
    CurrentRunIsWritten(runs, run);
    hide SessionOk;
    hide LogOk;
    LogIsInOrder(runs[run].steps, runs[run].request);
  }

  lemma {:induction false} EndedIsInOrder(s: Snapshot, run: nat, outcome: Outcome)
    requires Ended(s, run, outcome)
    ensures RequestedInOrder(s.runs[run].steps, s.runs[run].request)
  {
    hide RequestedInOrder;
    SessionIsInOrder(s.runs, run);
  }

  lemma {:induction false} EndedIsSourced(s: Snapshot, run: nat, outcome: Outcome)
    requires Ended(s, run, outcome)
    ensures Sourced(s.runs[run].steps, s.runs[run].request)
  {
    CurrentRunIsWritten(s.runs, run);
  }

  lemma {:induction false} NothingRequested(steps: seq<Step>)
    requires Quiet(steps) && RequestedSkillNames(steps).None?
    ensures ReadyForModel(steps)
  {
  }

  /** The next requested skill's call is accounted for. */
  lemma {:induction false} RequestedCallIsSourced(steps: seq<Step>, request: string, step: Step, index: nat)
    requires Quiet(steps) && index == |Summarize(steps).explicitCalls| < |Names(steps)|
    requires step.payload.AssistantResponse?
    requires step.payload.items == [CallItem(ExplicitCall(index, Names(steps)[index], request))]
    ensures StepSourced(steps, request, step)
  {
    var call := ExplicitCall(index, Names(steps)[index], request);
    SingleCall(call);
    ExplicitIdIsNew(steps, index);
    hide Summarize;
    hide IsExplicitId;
    hide ExplicitSkillInvocationId;
    assert IsRequestedCall(Names(steps), request, step.payload.items, index);
  }

  lemma {:induction false} ProgressKeepsNames(a: Snapshot, b: Snapshot, run: nat, own: nat)
    requires Progress(a, b, run, own)
    ensures run < |a.runs| && run < |b.runs|
    ensures RequestedSkillNames(b.runs[run].steps) == RequestedSkillNames(a.runs[run].steps)
  {
  }

  /** One agent runtime, built for one request over the shared store and provider. */
  class RunLoop {
    const store: Store
    const provider: Provider
    const config: Config
    /** Whether an answer is acceptable for the arguments of a `human_input` call. */
    const accepts: (Json, string) -> bool
    /** Text streamed to the client during the current `run` call. */
    var partialOutput: string

    constructor (store: Store, provider: Provider, config: Config, accepts: (Json, string) -> bool)
      ensures this.store == store && this.provider == provider
      ensures this.config == config && this.accepts == accepts && partialOutput == ""
    {
      this.store, this.provider, this.config, this.accepts := store, provider, config, accepts;
      partialOutput := "";
    }

    ghost predicate Valid()
      reads store, provider
    {
      SessionValid(store.runs, provider.exchanges)
    }

    /** Run `run` is the last of the session and being executed. */
    ghost predicate Current(run: nat)
      reads store, provider
    {
      && run + 1 == |store.runs|
      && store.runs[run].status == Running
      && SessionOk(store.runs)
      && TraceOk(provider.exchanges, store.runs)
    }

    function Log(run: nat): seq<Step>
      requires run < |store.runs|
      reads store
    {
      store.runs[run].steps
    }

    function Prior(run: nat): seq<Step>
      requires run <= |store.runs|
      reads store
    {
      SessionSteps(store.runs[..run])
    }

    ghost function Now(): Snapshot
      reads store, provider
    {
      Snapshot(store.runs, store.context, provider.exchanges, provider.toolRuns)
    }

    method BuildCompletionRequest(run: nat) returns (request: Result<Request, string>)
      requires run + 1 == |store.runs| && Written(run, store.runs[run])
      ensures request == Ok(MainRequest(store.context, Prior(run) + Log(run)))
      ensures ShowsSession(request.value, store.context, Prior(run) + Log(run))
    {
      MainRequestShowsSession(store.context, Prior(run) + Log(run));
      var messages := ContextMessages(store.context);
      var tools := ContextTools(store.context);
      messages := messages + Chat(SessionSteps(store.runs));
      MainPromptExists(store.context, store.runs);
      if messages == [] {
        assert false;
      }
      request := Ok(Request(messages, tools));
    }

    method SkillCompletionContext(run: nat, invocation: SkillInvocation, skill: Skill)
      returns (context: Result<Request, string>)
      requires run + 1 == |store.runs|
      ensures context == match SkillMessages(store.context, Prior(run), Log(run), run, invocation, skill) {
                           case Ok(messages) => Ok(Request(messages, SkillTools(store.context)))
                           case Err(message) => Err(message)
                         }
      ensures context.Ok? ==>
                && ShowsSkill(context.value.messages, store.context, Prior(run), Log(run), run, invocation, skill)
                && Projects(store.context, context.value.tools, IsSkillTool, CarriesTool)
    {
      if SkillMessages(store.context, Prior(run), Log(run), run, invocation, skill).Ok? {
        SkillMessagesShowSkill(store.context, Prior(run), Log(run), run, invocation, skill);
        ContextIsCarried(store.context);
      }
      hide ShowsSkill;
      hide Projects;
      var parent := ParentMessagesBeforeSkillCall(ContextMessages(store.context), SessionSteps(store.runs), run, invocation.id);
      match parent {
        case Err(message) => return Err(message);
        case Ok(messages) =>
          var preamble := InjectSkillInstructions(messages, skill.instructions);
          var extended := AppendSkillTranscript(preamble + [User(invocation.task)], invocation.id, Log(run));
          match extended {
            case Err(message) => return Err(message);
            case Ok(all) => return Ok(Request(all, SkillTools(store.context)));
          }
      }
    }

    /** The live message list is what a resume would rebuild from the log. */
    ghost predicate Replays(run: nat, invocation: SkillInvocation, skill: Skill, messages: seq<Message>)
      requires run < |store.runs|
      reads store
    {
      ReplayOf(store.context, Prior(run), Log(run), run, invocation, skill, messages)
    }

    /** Appends a step of the current run that keeps its log in order and is accounted for. */
    method Append(run: nat, kind: StepKind, payload: StepPayload)
      requires Current(run)
      requires kind == KindOf(payload) && !payload.SkillsRequested?
      requires LogOk(Log(run) + [Step(run, kind, payload)])
      requires StepSourced(Log(run), store.runs[run].request, Step(run, kind, payload))
      modifies store`runs
      ensures Current(run) && Advanced(old(Now()), Now(), run)
      ensures Log(run) == old(Log(run)) + [Step(run, kind, payload)]
      ensures Prior(run) == old(Prior(run))
    {
      hide SessionOk;
      hide TraceOk;
      hide StepSourced;
      SessionSurvivesStep(provider.exchanges, store.runs, run, Step(run, kind, payload));
      store.AppendStep(run, kind, payload);
      assert store.runs[..run] == old(store.runs[..run]);
    }

    /** Executes the tool calls of one skill response and keeps the message list in step. */
    method ExecuteSkillTools(run: nat, invocation: SkillInvocation, ghost skill: Skill, live: seq<Message>, calls: seq<ToolCall>)
      returns (refused: bool, messages: seq<Message>, ghost ran: seq<ToolRun>, ghost recorded: seq<Step>)
      requires Current(run)
      requires InSkill(Log(run), invocation.id)
      requires forall c :: c in calls ==> c.id in Summarize(Log(run)).taken && !IsHumanInput(c)
      requires Replays(run, invocation, skill, live)
      modifies store`runs, provider`toolRuns
      ensures Current(run) && Advanced(old(Now()), Now(), run)
      ensures InSkill(Log(run), invocation.id)
      ensures Names(Log(run)) == old(Names(Log(run)))
      ensures SameLedger(old(Summarize(Log(run))), Summarize(Log(run)))
      ensures CountResponses(Log(run), invocation.id) == old(CountResponses(Log(run), invocation.id))
      ensures Summarize(Log(run)).taken == old(Summarize(Log(run))).taken
      ensures Summarize(Log(run)).mentioned <= old(Summarize(Log(run))).mentioned + IdSet(calls)
      ensures refused <==> exists c :: c in calls && c.name == CALL_SKILL_TOOL_NAME
      ensures !refused ==> Replays(run, invocation, skill, messages)
      ensures provider.toolRuns == old(provider.toolRuns) + ran && Log(run) == old(Log(run)) + recorded
      ensures !refused ==> ToolsRan(ran, recorded, calls, invocation.id)
    {
      hide InSkill;
      hide Grew;
      hide SessionOk;
      hide TraceOk;
      hide LogOk;
      hide ReplayOf;
      hide Summarize;
      hide Names;
      hide CountResponses;
      hide Advanced;
      ghost var start := Now();
      AdvancedReflexive(start, run);
      messages, ran, recorded := live, [], [];
      ghost var u, names := Summarize(Log(run)), Names(Log(run));
      ghost var count := CountResponses(Log(run), invocation.id);
      for i := 0 to |calls|
        invariant Current(run) && Advanced(start, Now(), run)
        invariant InSkill(Log(run), invocation.id) && Names(Log(run)) == names
        invariant SameLedger(u, Summarize(Log(run))) && Summarize(Log(run)).taken == u.taken
        invariant Summarize(Log(run)).mentioned <= u.mentioned + IdSet(calls)
        invariant CountResponses(Log(run), invocation.id) == count
        invariant Replays(run, invocation, skill, messages)
        invariant forall k :: 0 <= k < i ==> calls[k].name != CALL_SKILL_TOOL_NAME
        invariant provider.toolRuns == old(provider.toolRuns) + ran && Log(run) == old(Log(run)) + recorded
        invariant ToolsRan(ran, recorded, calls[..i], invocation.id)
      {
        var call := calls[i];
        if call.name == CALL_SKILL_TOOL_NAME {
          return true, messages, ran, recorded;
        }
        ghost var before := Now();
        var result := provider.ExecuteTool(call.name, call.arguments);
        var payload := SkillToolResult(invocation.id, call.id, call.callId, ToolContent(result));
        var output := ToolOutput(call.id, call.callId, ToolContent(result));
        ghost var step := Step(run, SkillExecutionKind, payload);
        SkillToolRecorded(Log(run), step, invocation.id);
        ReplayExtends(store.context, Prior(run), Log(run), step, run, invocation, skill, messages, output, output);
        AdvancedByTool(start, before, Now(), run, ToolRun(call.name, call.arguments, result));
        before := Now();
        Append(run, SkillExecutionKind, payload);
        AdvancedTransitive(start, before, Now(), run);
        messages := messages + [output];
        ran, recorded := ran + [ToolRun(call.name, call.arguments, result)], recorded + [step];
      }
      assert calls[..|calls|] == calls;
      refused := false;
    }

    /** One model call of a skill subflow, recorded when its reply can be used. */
    method AskInSkill(run: nat, invocation: SkillInvocation, skill: Skill, messages: seq<Message>, tools: seq<string>)
      returns (turn: Result<AssistantTurn, SkillOutcome>, ghost messageId: Option<string>)
      requires Current(run)
      requires InSkill(Log(run), invocation.id) && Serves(Log(run), config.skills, invocation, skill)
      requires CountResponses(Log(run), invocation.id) < MAX_LOOP_ITERATIONS
      requires Replays(run, invocation, skill, messages)
      requires tools == SkillTools(store.context)
      modifies store`runs, provider`exchanges
      ensures Current(run) && Advanced(old(Now()), Now(), run)
      ensures |provider.exchanges| == old(|provider.exchanges|) + 1
      ensures provider.exchanges[old(|provider.exchanges|)].request == Request(messages, tools)
      ensures AskedFor(provider.exchanges, old(|provider.exchanges|), config.skills, invocation, skill)
      ensures turn.Err? ==> Log(run) == old(Log(run)) && (turn.error.SkillFailed? || turn.error.SkillCutOff?)
      ensures MainStreams(provider.exchanges) == old(MainStreams(provider.exchanges))
      ensures var reply := provider.exchanges[old(|provider.exchanges|)].reply;
              && (turn.Err? ==> if turn.error.SkillCutOff? then reply.Aborted? else FailsSubflow(reply))
              && (turn.Ok? ==> reply.Reply? && turn.value.items == ItemsOf(reply.choice))
      ensures turn.Ok? ==>
                && turn.value.toolCalls == Calls(turn.value.items)
                && turn.value.finalAnswer == TextOf(turn.value.items)
                && Log(run) == old(Log(run)) +
                   [Step(run, SkillExecutionKind, SkillAssistantResponse(invocation.id, messageId, turn.value.items))]
                && InSkill(Log(run), invocation.id)
                && Names(Log(run)) == old(Names(Log(run)))
                && CountResponses(Log(run), invocation.id) == old(CountResponses(Log(run), invocation.id)) + 1
                && (forall c :: c in turn.value.toolCalls ==>
                      c.id in Summarize(Log(run)).taken && c.id !in Summarize(Log(run)).mentioned)
                && SkillResponseEffect(old(Summarize(Log(run))), Summarize(Log(run)), turn.value.items, invocation.id)
      ensures turn.Ok? && turn.value.toolCalls != [] ==>
                && Contents(turn.value.items) != []
                && Replays(run, invocation, skill, messages + [Assistant(None, Contents(turn.value.items))])
    {
      hide TakesTurn;
      hide Advanced;
      hide Grew;
      hide LogOk;
      hide ReplayOf;
      hide Summarize;
      hide Names;
      hide CountResponses;
      hide Calls;
      hide Contents;
      hide SessionOk;
      hide TraceOk;
      hide PromptOk;
      hide SkillResponseEffect;
      hide ServesCall;
      hide MainStreams;
      hide Misused;
      hide HasHumanInput;
      hide Serves;
      hide StepSourced;
      hide IsExplicitId;
      ghost var id, steps, before, earlier, start := invocation.id, Log(run), store.runs, provider.exchanges, Now();
      assert store.runs[..run] == before[..run];
      messageId := None;
      var reply := provider.Complete(run, SkillLoop(invocation, skill), config.skills, store.context, Prior(run), Log(run),
                                     Request(messages, tools));
      ghost var e := Exchange(run, SkillLoop(invocation, skill), config.skills, store.context, Prior(run), steps,
                                  Request(messages, tools), reply);
      ReplayIsPrompt(e, invocation, skill);
      MainStreamsSnoc(earlier, e);
      AdvancedByCall(start, Now(), run, e, before);
      match reply {
        case Aborted(_) =>
          UnusableReplyJoinsTrace(earlier, e, before, run);
          return Err(SkillCutOff), messageId;
        case ModelError(message, _) =>
          UnusableReplyJoinsTrace(earlier, e, before, run);
          return Err(SkillFailed("skill subflow completion failed: " + message)), messageId;
        case Reply(providerId, choice, _) =>
          var parsed := AssistantTurnFromResponse(choice);
          if parsed.Err? {
            UnusableReplyJoinsTrace(earlier, e, before, run);
            return Err(SkillFailed("skill subflow returned invalid response: " + parsed.error)), messageId;
          }
          messageId := providerId;
          turn := Ok(parsed.value);
          ghost var step := ResponseStep(run, SkillLoop(invocation, skill), reply);
          SkillResponseRecorded(steps, step, id);
          SkillStepIsSourced(steps, before[run].request, step);
          ReplyJoinsTrace(earlier, e, before, run);
          store.AppendStep(run, SkillExecutionKind, SkillAssistantResponse(invocation.id, providerId, parsed.value.items));
          AdvancedByCall(start, Now(), run, e, store.runs);
          if parsed.value.toolCalls != [] {
            var shown := Contents(parsed.value.items);
            CallsAreShown(parsed.value.items);
            ReplayExtends(store.context, Prior(run), steps, step, run, invocation, skill, messages,
                          Assistant(providerId, shown), Assistant(None, shown));
          }
      }
    }

    /** One turn of a subflow: a model call, and the tools it asks for unless that ends the subflow. */
    method RunSkillIteration(run: nat, invocation: SkillInvocation, skill: Skill, messages: seq<Message>, tools: seq<string>)
      returns (ended: Option<SkillOutcome>, extended: seq<Message>)
      requires Current(run)
      requires InSkill(Log(run), invocation.id) && Balanced(Summarize(Log(run)), invocation.id)
      requires CountResponses(Log(run), invocation.id) < MAX_LOOP_ITERATIONS
      requires Replays(run, invocation, skill, messages) && Serves(Log(run), config.skills, invocation, skill)
      requires tools == SkillTools(store.context)
      modifies store`runs, provider
      ensures Current(run) && Advanced(old(Now()), Now(), run)
      ensures InSkill(Log(run), invocation.id) && Names(Log(run)) == old(Names(Log(run)))
      ensures MentionsOnlyNew(old(Summarize(Log(run))), Summarize(Log(run)), invocation.id)
      ensures |provider.exchanges| == old(|provider.exchanges|) + 1
      ensures MainStreams(provider.exchanges) == old(MainStreams(provider.exchanges))
      ensures AskedFor(provider.exchanges, old(|provider.exchanges|), config.skills, invocation, skill)
      ensures match ended
              case Some(outcome) =>
                && SubflowEnds(old(Summarize(Log(run))), Log(run), invocation, outcome)
                && EndsByReply(outcome, provider.exchanges[old(|provider.exchanges|)].reply)
              case None =>
                && SameLedger(old(Summarize(Log(run))), Summarize(Log(run)))
                && CountResponses(Log(run), invocation.id) == old(CountResponses(Log(run), invocation.id)) + 1
                && Replays(run, invocation, skill, extended)
    {
      hide IsReport;
      hide ToolsRan;
      hide EndsByReply;
      hide SkillSummary;
      hide TextOf;
      hide FailsSubflow;
      hide ItemsOf;
      hide Grew;
      hide LogOk;
      hide ReplayOf;
      hide Summarize;
      hide Names;
      hide CountResponses;
      hide SessionOk;
      hide TraceOk;
      hide Calls;
      hide ServesCall;
      hide Contents;
      hide SkillTools;
      hide Advanced;
      hide MainStreams;
      hide Serves;
      hide AskedFor;
      ghost var start := Now();
      var turn, _ := AskInSkill(run, invocation, skill, messages, tools);
      ghost var reply := provider.exchanges[|start.exchanges|].reply;
      if turn.Err? {
        ReplyEnds(turn.error, reply);
        return Some(turn.error), messages;
      }
      var AssistantTurn(finalAnswer, toolCalls, items) := turn.value;
      if toolCalls == [] {
        var outcome := SkillCompleted(SkillResultJson(invocation.skillName, finalAnswer));
        CompletionEnds(Summarize(start.runs[run].steps), Log(run), items, invocation);
        ReplyEnds(outcome, reply);
        return Some(outcome), messages;
      }
      extended := messages + [Assistant(None, Contents(items))];
      if HasHumanInput(toolCalls) {
        if |toolCalls| != 1 {
          MisuseFails("human_input must be the only tool call in a skill response", reply);
          return Some(SkillFailed("human_input must be the only tool call in a skill response")), extended;
        }
        PauseIsResumable(store.context, Prior(run), Log(run), run, invocation, skill, extended);
        ReplyEnds(SkillWaiting, reply);
        return Some(SkillWaiting), extended;
      }
      assert !PausesSkill(items);
      ghost var before := Now();
      var refused;
      ghost var ran, recorded;
      refused, extended, ran, recorded := ExecuteSkillTools(run, invocation, skill, extended, toolCalls);
      AdvancedTransitive(start, before, Now(), run);
      if refused {
        MisuseFails("skill subflows cannot call other skills", reply);
      }
      ended := if refused then Some(SkillFailed("skill subflows cannot call other skills")) else None;
    }

    method RunSkillSubflow(run: nat, invocation: SkillInvocation, skill: Skill, context: Request, completedIterations: nat)
      returns (outcome: SkillOutcome)
      requires Current(run)
      requires InSkill(Log(run), invocation.id) && Balanced(Summarize(Log(run)), invocation.id)
      requires completedIterations == CountResponses(Log(run), invocation.id) <= MAX_LOOP_ITERATIONS
      requires Replays(run, invocation, skill, context.messages) && Serves(Log(run), config.skills, invocation, skill)
      requires context.tools == SkillTools(store.context)
      modifies store`runs, provider
      ensures Current(run) && Advanced(old(Now()), Now(), run)
      ensures InSkill(Log(run), invocation.id)
      ensures Names(Log(run)) == old(Names(Log(run)))
      ensures SubflowEnds(old(Summarize(Log(run))), Log(run), invocation, outcome)
      ensures MentionsOnlyNew(old(Summarize(Log(run))), Summarize(Log(run)), invocation.id)
      ensures |provider.exchanges| <= old(|provider.exchanges|) + MAX_LOOP_ITERATIONS - completedIterations
      ensures MainStreams(provider.exchanges) == old(MainStreams(provider.exchanges))
      ensures AskedFor(provider.exchanges, old(|provider.exchanges|), config.skills, invocation, skill)
      ensures outcome.SkillFailed? ==>
                SubflowFails(provider.exchanges, old(|provider.exchanges|), CountResponses(Log(run), invocation.id))
      ensures outcome == SkillCutOff ==> CutOffBy(provider.exchanges, old(|provider.exchanges|))
    {
      hide LogOk;
      hide ReplayOf;
      hide Summarize;
      hide Names;
      hide CountResponses;
      hide SessionOk;
      hide TraceOk;
      hide ServesCall;
      hide SkillTools;
      hide Advanced;
      hide MainStreams;
      hide SubflowEnds;
      hide MentionsOnlyNew;
      hide Serves;
      hide AskedFor;
      hide FailsSubflow;
      var messages := context.messages;
      ghost var start := Now();
      AdvancedReflexive(start, run);
      AskedForNothing(provider.exchanges, config.skills, invocation, skill);
      ghost var id, u, names := invocation.id, Summarize(Log(run)), Names(Log(run));
      NothingMentioned(u, id);
      for k := completedIterations to MAX_LOOP_ITERATIONS
        invariant Current(run) && Advanced(start, Now(), run)
        invariant InSkill(Log(run), id) && Names(Log(run)) == names
        invariant SameLedger(u, Summarize(Log(run))) && MentionsOnlyNew(u, Summarize(Log(run)), id)
        invariant CountResponses(Log(run), id) == k
        invariant Replays(run, invocation, skill, messages) && Serves(Log(run), config.skills, invocation, skill)
        invariant AskedFor(provider.exchanges, old(|provider.exchanges|), config.skills, invocation, skill)
        invariant |provider.exchanges| == old(|provider.exchanges|) + k - completedIterations
        invariant MainStreams(provider.exchanges) == old(MainStreams(provider.exchanges))
      {
        ghost var before, w := Now(), Summarize(Log(run));
        var ended;
        ended, messages := RunSkillIteration(run, invocation, skill, messages, context.tools);
        AdvancedTransitive(start, before, Now(), run);
        StillServes(before, Now(), run, config.skills, invocation, skill);
        AskedForOn(before, Now(), run, |start.exchanges|, config.skills, invocation, skill);
        MentionsTransitive(u, w, Summarize(Log(run)), id);
        if ended.Some? {
          SubflowEndsFrom(u, w, Log(run), invocation, ended.value);
          return ended.value;
        }
      }
      outcome := SkillFailed("skill subflow reached the maximum number of iterations");
      CappedSubflowEnds(u, Log(run), invocation, outcome);
    }

    /** Runs the skill an open call asks for. */
    method ExecuteSkillCall(run: nat, call: ToolCall, ghost rest: seq<ToolCall>) returns (outcome: SkillOutcome)
      requires Current(run)
      requires rest != [] && rest[0] == call && Executing(Log(run), rest)
      requires call.name == CALL_SKILL_TOOL_NAME && HasCall(Log(run), call)
      modifies store`runs, provider
      ensures Current(run) && Progress(old(Now()), Now(), run, 0)
      ensures Names(Log(run)) == old(Names(Log(run)))
      ensures outcome == SkillWaiting ==> PausedSkill(Log(run), call.id)
      ensures outcome != SkillWaiting ==> Serving(Log(run), rest)
      ensures Summarize(Log(run)).explicitCalls == old(Summarize(Log(run)).explicitCalls)
      ensures outcome.SkillCompleted? ==>
                && ParseSkillArguments(call.arguments).Some?
                && SkillSummary(Log(run), call.id, ParseSkillArguments(call.arguments).value.0, outcome.content)
      ensures outcome.SkillFailed? ==>
                SkillCallFails(call, config.skills, Log(run), provider.exchanges, old(|provider.exchanges|))
      ensures outcome == SkillCutOff ==> CutOffBy(provider.exchanges, old(|provider.exchanges|))
      ensures SkillRan(call, config.skills, run, old(Log(run)), Log(run), provider.exchanges, old(|provider.exchanges|))
      ensures MainStreams(provider.exchanges) == old(MainStreams(provider.exchanges))
    {
      hide Progress;
      hide ParseSkillArguments;
      hide Transcript;
      hide SameLedger;
      hide Written;
      hide MainStreams;
      hide FailsSubflow;
      hide LogOk;
      hide ReplayOf;
      hide Summarize;
      hide Names;
      hide CountResponses;
      hide SessionOk;
      hide TraceOk;
      hide CallsLeft;
      hide ServesCall;
      hide PausedSkill;
      hide SkillSummary;
      hide Serves;
      hide AskedFor;
      hide HasCall;
      hide StepSourced;
      ghost var u, start := Summarize(Log(run)), Now();
      ProgressNone(start, run);
      var arguments := ParseSkillArguments(call.arguments);
      if arguments.None? {
        return SkillFailed("invalid call_skill tool arguments");
      }
      var (name, task) := arguments.value;
      var found := FindSkill(config.skills, name);
      if found.None? {
        return SkillFailed("skill not found: " + name);
      }
      var skill := found.value;
      var invocation := SkillInvocation(call.id, call.callId, skill.name, task);
      var payload := SkillStarted(call.id, call.callId, skill.name, task);
      OpenIsTaken(Log(run));
      SkillStartRecorded(Log(run), rest, Step(run, SkillExecutionKind, payload));
      StartBegins(Log(run), rest, Step(run, SkillExecutionKind, payload), store.runs[run].request, config.skills, invocation, skill);
      Append(run, SkillExecutionKind, payload);
      ghost var v, mid := Summarize(Log(run)), Now();
      SkillPromptIsReady(store.context, Prior(run), store.runs, run, invocation, skill);
      var context := SkillCompletionContext(run, invocation, skill);
      outcome := RunSkillSubflow(run, invocation, skill, context.value, 0);
      AdvancedTransitive(start, mid, Now(), run);
      LogGrew(mid, Now(), run);
      SkillCosts(start, mid, Now(), run);
      if outcome != SkillWaiting {
        SubflowLeavesCalls(u, v, Summarize(Log(run)), rest);
      }
    }

    /** Executes one open call and records its result, unless a skill stops to ask. */
    method ExecuteToolCall(run: nat, call: ToolCall, ghost rest: seq<ToolCall>) returns (outcome: ToolCallOutcome)
      requires Current(run)
      requires rest != [] && rest[0] == call && Executing(Log(run), rest) && HasCall(Log(run), call)
      requires !IsHumanInput(call)
      modifies store`runs, provider
      ensures Current(run) && Progress(old(Now()), Now(), run, 0)
      ensures Names(Log(run)) == old(Names(Log(run)))
      ensures Summarize(Log(run)).explicitCalls == old(Summarize(Log(run)).explicitCalls)
      ensures outcome == Done ==> Executing(Log(run), rest[1..]) && (rest[1..] == [] ==> Quiet(Log(run)))
      ensures outcome == WaitingForAnswer ==> PausedSkill(Log(run), call.id) && Paused(Log(run))
      ensures outcome == Done ==> ResultOf(call, config.skills, old(Log(run)), Log(run), old(provider.toolRuns), provider.toolRuns,
                                           provider.exchanges, old(|provider.exchanges|))
      ensures outcome == CutOff ==> CutOffBy(provider.exchanges, old(|provider.exchanges|))
      ensures MainStreams(provider.exchanges) == old(MainStreams(provider.exchanges))
    {
      hide LogOk;
      hide Summarize;
      hide Names;
      hide SessionOk;
      hide TraceOk;
      hide CallsLeft;
      hide AtRest;
      hide PausedSkill;
      hide Paused;
      hide Advanced;
      hide Progress;
      hide SkillSummary;
      hide SkillCallFails;
      hide MainStreams;
      hide HasCall;
      hide SkillRan;
      ghost var start := Now();
      ProgressNone(start, run);
      var content;
      if call.name == CALL_SKILL_TOOL_NAME {
        var skill := ExecuteSkillCall(run, call, rest);
        match skill {
          case SkillCompleted(output) => content := output;
          case SkillWaiting =>
            SkillPauseIsPause(Log(run), call.id);
            return WaitingForAnswer;
          case SkillCutOff => return CutOff;
          case SkillFailed(message) => content := ErrorJson(message);
        }
      } else {
        var result := provider.ExecuteTool(call.name, call.arguments);
        ProgressByTool(start, Now(), run, ToolRun(call.name, call.arguments, result));
        content := ToolContent(result);
      }
      ghost var mid, payload := Now(), ToolResult(call.id, call.callId, content);
      ResultRecorded(Log(run), rest, Step(run, ToolResultKind, payload));
      Append(run, ToolResultKind, ToolResult(call.id, call.callId, content));
      ProgressByStep(mid, Now(), run, Step(run, ToolResultKind, payload));
      ProgressTransitive(start, mid, Now(), run, 0, 0);
      outcome := Done;
    }

    /** Records an error step and marks the run as failed. */
    method Fail(run: nat, message: string) returns (outcome: Outcome)
      requires Current(run)
      modifies store`runs
      ensures outcome == Failure(message)
      ensures Ended(Now(), run, outcome) && Progress(old(Now()), Now(), run, 0)
    {
      hide SessionOk;
      hide TraceOk;
      hide LogOk;
      ghost var step, start := Step(run, ErrorKind, Error(message)), Now();
      CurrentRunIsWritten(store.runs, run);
      NeutralStep(Log(run), step);
      SummarizeSnoc(Log(run), step);
      Append(run, ErrorKind, Error(message));
      SessionSurvivesStatus(provider.exchanges, store.runs, run, Failed);
      store.UpdateRunStatus(run, Failed);
      outcome := Failure(message);
    }

    /** Ends the execution with a status; the log stays as it is. */
    method Close(run: nat, outcome: Outcome)
      requires Current(run)
      requires outcome.Question? ==> Paused(Log(run))
      requires outcome.Answer? ==>
                 && Log(run) != []
                 && Log(run)[|Log(run)| - 1].payload.AssistantResponse?
                 && Calls(Log(run)[|Log(run)| - 1].payload.items) == []
                 && outcome.answer == TextOf(Log(run)[|Log(run)| - 1].payload.items)
      requires outcome.Answer? || outcome.Question?
      modifies store`runs
      ensures Ended(Now(), run, outcome) && Progress(old(Now()), Now(), run, 0)
      ensures store.runs == old(store.runs)[run := old(store.runs)[run].(
                              status := if outcome.Answer? then Completed else WaitingForHumanInput)]
    {
      var status := if outcome.Answer? then Completed else WaitingForHumanInput;
      CurrentRunIsWritten(store.runs, run);
      SessionSurvivesStatus(provider.exchanges, store.runs, run, status);
      store.UpdateRunStatus(run, status);
    }

    /** Asks the model for the next main response and records it when it can be used. */
    method AskInMain(run: nat) returns (turn: Result<AssistantTurn, Outcome>)
      requires Current(run)
      requires ReadyForModel(Log(run))
      modifies store`runs, provider`exchanges, this`partialOutput
      ensures Progress(old(Now()), Now(), run, 1)
      ensures |provider.exchanges| == old(|provider.exchanges|) + 1
      ensures provider.exchanges[old(|provider.exchanges|)].request == MainRequest(store.context, old(Prior(run)) + old(Log(run)))
      ensures turn.Err? ==> Ended(Now(), run, turn.error)
      ensures turn.Err? ==> StopsAt(turn.error, provider.exchanges, old(|provider.exchanges|))
      ensures var streamed := provider.exchanges[old(|provider.exchanges|)].reply.streamed;
              && partialOutput == old(partialOutput) + streamed
              && MainStreams(provider.exchanges) == old(MainStreams(provider.exchanges)) + [streamed]
      ensures turn.Ok? ==>
                && Current(run)
                && turn.value.toolCalls == Calls(turn.value.items)
                && turn.value.finalAnswer == TextOf(turn.value.items)
                && Log(run) != []
                && Log(run)[|Log(run)| - 1].payload.AssistantResponse?
                && Log(run)[|Log(run)| - 1].payload.items == turn.value.items
                && (if HasHumanInput(turn.value.toolCalls) then PausedMain(Log(run))
                    else Executing(Log(run), turn.value.toolCalls)
                         && |Summarize(Log(run)).explicitCalls| == |Names(Log(run))|)
    {
      hide TakesTurn;
      hide ShowsSession;
      hide Grew;
      hide LogOk;
      hide Summarize;
      hide Names;
      hide Calls;
      hide SessionOk;
      hide TraceOk;
      hide PromptOk;
      hide PausedMain;
      hide CallsLeft;
      hide Advanced;
      hide MainStreams;
      hide StopsAt;
      hide Ended;
      hide StepSourced;
      hide IsExplicitId;
      ghost var steps, before, earlier, start := Log(run), store.runs, provider.exchanges, Now();
      assert store.runs[..run] == before[..run];
      CurrentRunIsWritten(before, run);
      var built := BuildCompletionRequest(run);
      var request := built.value;
      var reply := provider.Complete(run, MainLoop, config.skills, store.context, Prior(run), Log(run), request);
      partialOutput := partialOutput + reply.streamed;
      ghost var e := Exchange(run, MainLoop, config.skills, store.context, Prior(run), steps, request, reply);
      MainPromptIsOk(e);
      MainStreamsSnoc(earlier, e);
      if !Usable(reply) {
        UnusableReplyJoinsTrace(earlier, e, before, run);
        AdvancedByCall(start, Now(), run, e, before);
      }
      ghost var mid := Now();
      match reply {
        case Aborted(_) =>
          ReplyStops(earlier, e, "");
          InterruptedIsEnded(Now(), run);
          return Err(Interrupted);
        case ModelError(message, _) =>
          ReplyStops(earlier, e, message);
          var failed := Fail(run, message);
          ProgressTransitive(start, mid, Now(), run, 1, 0);
          return Err(failed);
        case Reply(messageId, choice, _) =>
          var parsed := AssistantTurnFromResponse(choice);
          if parsed.Err? {
            ReplyStops(earlier, e, parsed.error);
            var failed := Fail(run, parsed.error);
            ProgressTransitive(start, mid, Now(), run, 1, 0);
            return Err(failed);
          }
          ghost var step := ResponseStep(run, MainLoop, reply);
          ResponseRecorded(steps, step);
          SummarizeSnoc(steps, step);
          ReplyIsSourced(steps, before[run].request, run, MainLoop, reply);
          ReplyJoinsTrace(earlier, e, before, run);
          store.AppendStep(run, AssistantResponseKind, AssistantResponse(messageId, parsed.value.items));
          AdvancedByCall(start, Now(), run, e, store.runs);
          turn := Ok(parsed.value);
      }
    }

    /** Executes all calls of a response, in order; `states` are the moments between them. */
    method ExecuteToolCalls(run: nat, calls: seq<ToolCall>) returns (outcome: ToolCallOutcome, ghost states: seq<Snapshot>)
      requires Current(run)
      requires calls != [] && Executing(Log(run), calls)
      requires forall c :: c in calls ==> HasCall(Log(run), c) && !IsHumanInput(c)
      requires |Summarize(Log(run)).explicitCalls| == |Names(Log(run))|
      modifies store`runs, provider
      ensures Current(run) && Progress(old(Now()), Now(), run, 0)
      ensures outcome == Done ==> ReadyForModel(Log(run))
      ensures outcome == WaitingForAnswer ==> Paused(Log(run))
      ensures |provider.exchanges| >= old(|provider.exchanges|)
      ensures outcome == CutOff ==> CutOffBy(provider.exchanges, old(|provider.exchanges|))
      ensures MainStreams(provider.exchanges) == old(MainStreams(provider.exchanges))
      ensures 0 < |states| <= |calls| + 1 && states[0] == old(Now())
      ensures CallsExecuted(calls[..|states| - 1], config.skills, run, states)
      ensures outcome == Done ==> |states| == |calls| + 1 && states[|calls|] == Now()
    {
      hide LogOk;
      hide Summarize;
      hide Names;
      hide SessionOk;
      hide TraceOk;
      hide Executing;
      hide Quiet;
      hide Paused;
      hide PausedSkill;
      hide Progress;
      hide ResultOf;
      hide HasCall;
      hide MainStreams;
      hide CallsExecuted;
      ghost var start := Now();
      ProgressNone(start, run);
      states := [start];
      NothingExecuted(config.skills, run, start);
      assert calls[..0] == [];
      for i := 0 to |calls|
        invariant Current(run) && Progress(start, Now(), run, 0)
        invariant Executing(Log(run), calls[i..])
        invariant forall c :: c in calls ==> HasCall(Log(run), c)
        invariant i == |calls| ==> Quiet(Log(run))
        invariant |provider.exchanges| >= old(|provider.exchanges|)
        invariant MainStreams(provider.exchanges) == old(MainStreams(provider.exchanges))
        invariant |Summarize(Log(run)).explicitCalls| == |Names(Log(run))|
        invariant |states| == i + 1 && states[0] == start && states[i] == Now()
        invariant CallsExecuted(calls[..i], config.skills, run, states)
      {
        ghost var mid := Now();
        assert calls[i..][1..] == calls[i + 1..];
        outcome := ExecuteToolCall(run, calls[i], calls[i..]);
        ProgressGrows(mid, Now(), run, 0);
        ProgressTransitive(start, mid, Now(), run, 0, 0);
        if outcome != Done {
          return;
        }
        forall c | c in calls
          ensures HasCall(Log(run), c)
        {
          ProgressKeepsCall(mid, Now(), run, c);
        }
        OneMoreExecuted(calls, i, config.skills, run, states, Now());
        states := states + [Now()];
      }
      assert calls[..|calls|] == calls;
      outcome := Done;
    }

    /** One turn of the main loop. */
    method RunMainIteration(run: nat) returns (finished: Option<Outcome>)
      requires Current(run)
      requires ReadyForModel(Log(run))
      modifies store`runs, provider, this`partialOutput
      ensures Progress(old(Now()), Now(), run, 1)
      ensures |provider.exchanges| > old(|provider.exchanges|)
      ensures var streamed := provider.exchanges[old(|provider.exchanges|)].reply.streamed;
              && partialOutput == old(partialOutput) + streamed
              && MainStreams(provider.exchanges) == old(MainStreams(provider.exchanges)) + [streamed]
      ensures finished.None? ==> Current(run) && ReadyForModel(Log(run))
      ensures finished.Some? ==>
                && Ended(Now(), run, finished.value)
                && TurnEnds(finished.value, provider.exchanges, old(|provider.exchanges|))
    {
      hide MainStreams;
      hide RefusedBy;
      hide CutOffBy;
      hide Calls;
      hide TextOf;
      hide HasHumanInput;
      hide LogOk;
      hide Summarize;
      hide Names;
      hide SessionOk;
      hide TraceOk;
      hide ReadyForModel;
      hide Executing;
      hide PausedMain;
      hide PausedSkill;
      hide Progress;
      hide Ended;
      hide HasCall;
      hide CallsExecuted;
      ghost var start := Now();
      var turn := AskInMain(run);
      if turn.Err? {
        return Some(turn.error);
      }
      var AssistantTurn(finalAnswer, toolCalls, items) := turn.value;
      ghost var mid := Now();
      ProgressGrows(start, mid, run, 1);
      if HasHumanInput(toolCalls) {
        Close(run, Question);
        ProgressTransitive(start, mid, Now(), run, 1, 0);
        return Some(Question);
      }
      if toolCalls == [] {
        Close(run, Answer(finalAnswer));
        ProgressTransitive(start, mid, Now(), run, 1, 0);
        return Some(Answer(finalAnswer));
      }
      HasCallsOfLast(Log(run));
      NoQuestions(toolCalls);
      var executed, _ := ExecuteToolCalls(run, toolCalls);
      ProgressTransitive(start, mid, Now(), run, 1, 0);
      ProgressGrows(mid, Now(), run, 0);
      if executed == CutOff {
        CutOffLater(provider.exchanges, |mid.exchanges|, |start.exchanges|);
        InterruptedIsEnded(Now(), run);
        return Some(Interrupted);
      }
      if executed == WaitingForAnswer {
        mid := Now();
        Close(run, Question);
        ProgressTransitive(start, mid, Now(), run, 1, 0);
        return Some(Question);
      }
      finished := None;
    }

    /** The main loop: at most eight model calls, with the tools they ask for in between. */
    method ContinueRun(run: nat) returns (outcome: Outcome)
      requires Current(run)
      requires ReadyForModel(Log(run))
      modifies store`runs, provider, this`partialOutput
      ensures Ended(Now(), run, outcome) && Progress(old(Now()), Now(), run, MAX_LOOP_ITERATIONS)
      ensures EndsFor(outcome, provider.exchanges, old(provider.exchanges))
      ensures StreamedOn(old(MainStreams(provider.exchanges)), MainStreams(provider.exchanges), old(partialOutput), partialOutput)
    {
      hide MainStreams;
      hide TurnEnds;
      hide SessionOk;
      hide TraceOk;
      hide ReadyForModel;
      hide Progress;
      hide Ended;
      hide StreamedOn;
      ghost var start, streams := Now(), MainStreams(provider.exchanges);
      ProgressNone(start, run);
      StreamedNothing(streams, partialOutput);
      for iteration: nat := 0 to MAX_LOOP_ITERATIONS
        invariant Current(run) && Progress(start, Now(), run, iteration)
        invariant ReadyForModel(Log(run))
        invariant |MainStreams(provider.exchanges)| == |streams| + iteration
        invariant StreamedOn(streams, MainStreams(provider.exchanges), old(partialOutput), partialOutput)
        invariant |provider.exchanges| >= old(|provider.exchanges|)
      {
        ghost var mid, streamed, partial := Now(), MainStreams(provider.exchanges), partialOutput;
        var finished := RunMainIteration(run);
        StreamedMore(streams, streamed, old(partialOutput), partial, provider.exchanges[|mid.exchanges|].reply.streamed);
        ProgressTransitive(start, mid, Now(), run, iteration, 1);
        if finished.Some? {
          ProgressWeaken(start, Now(), run, iteration + 1, MAX_LOOP_ITERATIONS);
          TurnExplains(finished.value, provider.exchanges, |mid.exchanges|, start.exchanges);
          return finished.value;
        }
      }
      ghost var mid := Now();
      outcome := Fail(run, "run loop reached the maximum number of iterations");
      ProgressTransitive(start, mid, Now(), run, MAX_LOOP_ITERATIONS, 0);
    }

    /** Runs the requested skills that have no result yet, in order. */
    method RunRequestedSkills(run: nat) returns (outcome: ToolCallOutcome)
      requires Current(run)
      requires Quiet(Log(run))
      modifies store`runs, provider
      ensures Current(run) && Progress(old(Now()), Now(), run, 0)
      ensures RequestedInOrder(Log(run), store.runs[run].request)
      ensures outcome == Done ==> ReadyForModel(Log(run))
      ensures outcome == WaitingForAnswer ==> Paused(Log(run))
      ensures outcome == CutOff ==> CutOffBy(provider.exchanges, old(|provider.exchanges|))
      ensures MainStreams(provider.exchanges) == old(MainStreams(provider.exchanges))
    {
      hide MainStreams;
      hide CutOffBy;
      hide LogOk;
      hide Summarize;
      hide SessionOk;
      hide TraceOk;
      hide Executing;
      hide Quiet;
      hide Paused;
      hide PausedSkill;
      hide HasToolResult;
      hide Progress;
      hide ResultOf;
      hide HasCall;
      hide StepSourced;
      hide RequestedInOrder;
      ghost var start := Now();
      ProgressNone(start, run);
      var steps := Log(run);
      var requested := RequestedSkillNames(steps);
      ExplicitProgress(steps);
      SessionIsInOrder(store.runs, run);
      if requested.None? {
        NothingRequested(steps);
        return Done;
      }
      var names := requested.value;
      ghost var done := |Summarize(steps).explicitCalls|;
      for index := 0 to |names|
        invariant Current(run) && Progress(start, Now(), run, 0)
        invariant Quiet(Log(run)) && RequestedSkillNames(Log(run)) == Some(names)
        invariant MainStreams(provider.exchanges) == old(MainStreams(provider.exchanges))
        invariant |Summarize(Log(run)).explicitCalls| == Max(done, index)
      {
        var invocationId := ExplicitSkillInvocationId(index);
        if HasToolResult(steps, invocationId) {
          continue;
        }
        var call := ToolCall(invocationId, None, CALL_SKILL_TOOL_NAME, SkillArguments(names[index], store.runs[run].request));
        var response := AssistantResponse(None, [CallItem(call)]);
        ghost var mid, step := Now(), Step(run, AssistantResponseKind, response);
        ExplicitCallRecorded(Log(run), step, call, index);
        RequestedCallIsSourced(Log(run), store.runs[run].request, step, index);
        Append(run, AssistantResponseKind, response);
        HasCallsOfLast(Log(run));
        ProgressByStep(mid, Now(), run, step);
        ProgressTransitive(start, mid, Now(), run, 0, 0);
        mid := Now();
        outcome := ExecuteToolCall(run, call, [call]);
        ProgressTransitive(start, mid, Now(), run, 0, 0);
        SessionIsInOrder(store.runs, run);
        if outcome != Done {
          ProgressGrows(start, mid, run, 0);
          CutOffLater(provider.exchanges, |mid.exchanges|, |start.exchanges|);
          return;
        }
        ProgressKeepsNames(start, Now(), run, 0);
        assert [call][1..] == [];
      }
      SessionIsInOrder(store.runs, run);
      outcome := Done;
    }

    /** Runs the requested skills that have no result yet, then enters the main loop. */
    method ContinueRequestedSkills(run: nat) returns (outcome: Outcome)
      requires Current(run)
      requires Quiet(Log(run))
      modifies store`runs, provider, this`partialOutput
      ensures Ended(Now(), run, outcome) && Progress(old(Now()), Now(), run, MAX_LOOP_ITERATIONS)
      ensures RequestedInOrder(Log(run), store.runs[run].request)
      ensures EndsFor(outcome, provider.exchanges, old(provider.exchanges))
      ensures StreamedOn(old(MainStreams(provider.exchanges)), MainStreams(provider.exchanges), old(partialOutput), partialOutput)
    {
      hide MainStreams;
      hide CutOffBy;
      hide SessionOk;
      hide TraceOk;
      hide Quiet;
      hide ReadyForModel;
      hide Paused;
      hide Progress;
      hide Ended;
      hide StreamedOn;
      hide EndsFor;
      hide RequestedInOrder;
      ghost var start := Now();
      StreamedNothing(MainStreams(provider.exchanges), partialOutput);
      var executed := RunRequestedSkills(run);
      ghost var mid := Now();
      ProgressGrows(start, mid, run, 0);
      match executed {
        case CutOff =>
          CutOffExplains(provider.exchanges, |start.exchanges|, start.exchanges);
          InterruptedIsEnded(Now(), run);
          ProgressWeaken(start, mid, run, 0, MAX_LOOP_ITERATIONS);
          return Interrupted;
        case WaitingForAnswer =>
          NothingToExplain(Question, provider.exchanges, start.exchanges);
          Close(run, Question);
          ProgressTransitive(start, mid, Now(), run, 0, 0);
          ProgressWeaken(start, Now(), run, 0, MAX_LOOP_ITERATIONS);
          return Question;
        case Done =>
          outcome := ContinueRun(run);
          EndsForEarlier(outcome, provider.exchanges, mid.exchanges, start.exchanges);
          EndedIsInOrder(Now(), run, outcome);
          ProgressTransitive(start, mid, Now(), run, 0, MAX_LOOP_ITERATIONS);
      }
    }

    /** Goes on with the subflow of a paused skill, if that skill is still there. */
    method ResumeSubflow(run: nat, invocation: SkillInvocation) returns (outcome: SkillOutcome)
      requires Current(run)
      requires InSkill(Log(run), invocation.id) && Reconciled(Summarize(Log(run)), invocation.id)
      requires Transcript(Log(run), invocation.id).Ok? && InvocationStarted(Log(run), invocation.id) == Some(invocation)
      modifies store`runs, provider
      ensures Current(run) && Progress(old(Now()), Now(), run, MAX_LOOP_ITERATIONS)
      ensures InSkill(Log(run), invocation.id)
      ensures SubflowEnds(old(Summarize(Log(run))), Log(run), invocation, outcome)
      ensures outcome.SkillFailed? ==>
                ResumeFails(invocation, config.skills, Log(run), provider.exchanges, old(|provider.exchanges|))
      ensures match FindSkill(config.skills, invocation.skillName) {
                case None => Log(run) == old(Log(run)) && provider.exchanges == old(provider.exchanges)
                case Some(skill) => AskedFor(provider.exchanges, old(|provider.exchanges|), config.skills, invocation, skill)
              }
      ensures outcome == SkillCutOff ==> CutOffBy(provider.exchanges, old(|provider.exchanges|))
      ensures MainStreams(provider.exchanges) == old(MainStreams(provider.exchanges))
    {
      hide LogOk;
      hide Summarize;
      hide CountResponses;
      hide SessionOk;
      hide TraceOk;
      hide ServesCall;
      hide Names;
      hide PausedSkill;
      hide Advanced;
      hide ReplayOf;
      hide SkillSummary;
      hide MainStreams;
      hide FailsSubflow;
      hide CutOffBy;
      hide InvocationStarted;
      hide AskedFor;
      CountIsCapped(Log(run), invocation.id);
      var found := FindSkill(config.skills, invocation.skillName);
      if found.None? {
        ProgressNone(Now(), run);
        ProgressWeaken(Now(), Now(), run, 0, MAX_LOOP_ITERATIONS);
        return SkillFailed("skill not found while resuming: " + invocation.skillName);
      }
      SkillPromptIsReady(store.context, Prior(run), store.runs, run, invocation, found.value);
      var context := SkillCompletionContext(run, invocation, found.value);
      var completed := CountResponses(Log(run), invocation.id);
      outcome := RunSkillSubflow(run, invocation, found.value, context.value, completed);
    }

    /** Goes on with a paused skill and records the result of its call, unless it stops again. */
    method FinishResumedSkill(run: nat, invocation: SkillInvocation) returns (outcome: ToolCallOutcome)
      requires Current(run)
      requires InSkill(Log(run), invocation.id) && Reconciled(Summarize(Log(run)), invocation.id)
      requires Transcript(Log(run), invocation.id).Ok? && InvocationStarted(Log(run), invocation.id) == Some(invocation)
      modifies store`runs, provider
      ensures Current(run) && Progress(old(Now()), Now(), run, MAX_LOOP_ITERATIONS)
      ensures outcome == Done ==>
                && Quiet(Log(run))
                && ResumedResultOf(invocation, config.skills, Log(run), provider.exchanges, old(|provider.exchanges|))
      ensures outcome == WaitingForAnswer ==> PausedSkill(Log(run), invocation.id)
      ensures outcome == CutOff ==> CutOffBy(provider.exchanges, old(|provider.exchanges|))
      ensures MainStreams(provider.exchanges) == old(MainStreams(provider.exchanges))
    {
      hide IsError;
      hide Grew;
      hide RequestedSkillNames;
      hide Advanced;
      hide InSkill;
      hide Summarize;
      hide SessionOk;
      hide TraceOk;
      hide PausedSkill;
      hide Quiet;
      hide Progress;
      hide SkillSummary;
      hide MainStreams;
      hide ResumeFails;
      hide CutOffBy;
      ghost var start := Now();
      var content;
      var skill := ResumeSubflow(run, invocation);
      match skill {
        case SkillCompleted(output) => content := output;
        case SkillFailed(message) => content := ErrorJson(message);
        case SkillWaiting => return WaitingForAnswer;
        case SkillCutOff => return CutOff;
      }
      ghost var mid, payload := Now(), ToolResult(invocation.id, invocation.callId, content);
      ResumedSkillResultRecorded(Log(run), Step(run, ToolResultKind, payload), invocation.id);
      Append(run, ToolResultKind, ToolResult(invocation.id, invocation.callId, content));
      ProgressByStep(mid, Now(), run, Step(run, ToolResultKind, payload));
      ProgressTransitive(start, mid, Now(), run, MAX_LOOP_ITERATIONS, 0);
      outcome := Done;
    }

    /** Continues the subflow whose question was answered, then the rest of the run. */
    method ContinueResumedSkill(run: nat, invocation: SkillInvocation) returns (outcome: Outcome)
      requires Current(run)
      requires InSkill(Log(run), invocation.id) && Reconciled(Summarize(Log(run)), invocation.id)
      requires Transcript(Log(run), invocation.id).Ok? && InvocationStarted(Log(run), invocation.id) == Some(invocation)
      modifies store`runs, provider, this`partialOutput
      ensures Ended(Now(), run, outcome) && Progress(old(Now()), Now(), run, 2 * MAX_LOOP_ITERATIONS)
      ensures EndsFor(outcome, provider.exchanges, old(provider.exchanges))
      ensures StreamedOn(old(MainStreams(provider.exchanges)), MainStreams(provider.exchanges), old(partialOutput), partialOutput)
    {
      hide LogOk;
      hide Summarize;
      hide SessionOk;
      hide TraceOk;
      hide Paused;
      hide PausedSkill;
      hide Quiet;
      hide Progress;
      hide Ended;
      hide MainStreams;
      hide CutOffBy;
      hide StreamedOn;
      hide EndsFor;
      hide ResumedResultOf;
      ghost var start := Now();
      StreamedNothing(MainStreams(provider.exchanges), partialOutput);
      var finished := FinishResumedSkill(run, invocation);
      ghost var mid := Now();
      ProgressWeaken(start, mid, run, MAX_LOOP_ITERATIONS, 2 * MAX_LOOP_ITERATIONS);
      match finished {
        case WaitingForAnswer =>
          SkillPauseIsPause(Log(run), invocation.id);
          NothingToExplain(Question, provider.exchanges, start.exchanges);
          Close(run, Question);
          ProgressTransitive(start, mid, Now(), run, 2 * MAX_LOOP_ITERATIONS, 0);
          return Question;
        case CutOff =>
          CutOffExplains(provider.exchanges, |start.exchanges|, start.exchanges);
          InterruptedIsEnded(Now(), run);
          return Interrupted;
        case Done =>
          outcome := ContinueRequestedSkills(run);
          ProgressGrows(start, mid, run, MAX_LOOP_ITERATIONS);
          EndsForEarlier(outcome, provider.exchanges, mid.exchanges, start.exchanges);
          ProgressTransitive(start, mid, Now(), run, MAX_LOOP_ITERATIONS, MAX_LOOP_ITERATIONS);
      }
    }

    /** The last run, if it waits for a person. */
    method LatestWaitingRun() returns (waiting: Option<nat>)
      ensures waiting == if store.runs != [] && store.runs[|store.runs| - 1].status == WaitingForHumanInput
                         then Some(|store.runs| - 1) else None
    {
      if store.runs == [] {
        return None;
      }
      var run := |store.runs| - 1;
      waiting := if store.runs[run].status == WaitingForHumanInput then Some(run) else None;
    }

    /** Records a valid answer to the pending question; an invalid one changes nothing. */
    method ResumeWaitingRun(run: nat, input: string) returns (target: Result<ResumeTarget, string>)
      requires Valid()
      requires run + 1 == |store.runs| && store.runs[run].status == WaitingForHumanInput
      modifies store`runs
      ensures var question := LatestQuestion(old(Log(run)), |old(Log(run))|);
              && question.Some?
              && AsksIn(question.value, old(Log(run))[|old(Log(run))| - 1])
              && (target.Ok? <==> accepts(question.value.call.arguments, input))
              && (target.Ok? ==>
                    && Current(run) && Progress(old(Now()), Now(), run, 0)
                    && Log(run) == old(Log(run)) + [AnswerStep(run, question.value, input)]
                    && RecordsAnswer(Log(run)[|old(Log(run))|], run, question.value, input)
                    && ContinuesAt(Log(run), question.value, target.value))
      ensures target.Err? ==> store.runs == old(store.runs)
    {
      hide LogOk;
      hide Summarize;
      hide SessionOk;
      hide TraceOk;
      hide PausedMain;
      hide PausedSkill;
      hide LatestQuestion;
      hide IsLatestQuestion;
      var steps := Log(run);
      PausedQuestion(steps);
      var pending := LatestPendingHumanInput(steps);
      var question := pending.value;
      if !accepts(question.call.arguments, input) {
        return Err("human input must match one of the option ids");
      }
      ghost var start := Now();
      var payload := AnswerPayload(question, input);
      AnswerRecorded(steps, run, question, input);
      CurrentRunIsWritten(store.runs, run);
      SessionSurvivesStep(provider.exchanges, store.runs, run, AnswerStep(run, question, input));
      store.AppendStep(run, KindOf(payload), payload);
      SessionSurvivesStatus(provider.exchanges, store.runs, run, Running);
      store.UpdateRunStatus(run, Running);
      ProgressByStep(start, Now(), run, AnswerStep(run, question, input));
      match question {
        case MainQuestion(_) => target := Ok(ResumeMain);
        case SkillQuestion(invocation, _) => target := Ok(ResumeSkill(invocation));
      }
    }

    /** Creates a run with its request, the session context and the requested skills. */
    method StartRun(request: string) returns (run: nat)
      requires Valid()
      requires forall r :: 0 <= r < |store.runs| ==> Final(store.runs[r].status)
      modifies store
      ensures run == |old(store.runs)| && Current(run)
      ensures store.runs[..run] == old(store.runs)
      ensures store.context == SessionContext(config) && HoldsConfig(store.context, config)
      ensures ContextMessages(store.context) == [System(config.systemPrompt)]
      ensures ContextTools(store.context) == config.tools + if config.skills == [] then [] else [CALL_SKILL_TOOL_NAME]
      ensures Log(run) == FirstSteps(run, request, config) && store.runs[run].request == request
      ensures RecordsRequested(Log(run), config.requested)
      ensures Quiet(Log(run)) && Summarize(Log(run)).startCount == 0
    {
      ghost var before := store.runs;
      ghost var first := Step(|before|, UserMessageKind, UserMessage(request));
      NewRunGrows(before, RunRecord(request, Running, []), first);
      NewRunGrows(before, RunRecord(request, Running, [first]),
                  Step(|before|, SkillExecutionKind, SkillsRequested(SkillNames(config.requested))));
      ConfigIsShown(SessionContext(config), config);
      run := store.CreateRun(request);
      store.ReplaceSessionContext(SessionContext(config));
      store.AppendStep(run, UserMessageKind, UserMessage(request));
      assert [] + [first] == [first];
      if config.requested != [] {
        store.AppendStep(run, SkillExecutionKind, SkillsRequested(SkillNames(config.requested)));
      }
      FirstStepsAreQuiet(run, request, config);
      FirstStepsRequest(run, request, config);
      assert [first] + [] == [first];
      assert FirstSteps(run, request, config) == if config.requested == [] then [first] + [] else
          [first] + [Step(run, SkillExecutionKind, SkillsRequested(SkillNames(config.requested)))];
      assert store.runs == before + [RunRecord(request, Running, FirstSteps(run, request, config))];
      SessionStarts(provider.exchanges, before, request, FirstSteps(run, request, config));
    }

    /** Cancels the last run if it is still marked as running. */
    method CancelLatestRunningRun() returns (canceled: Option<nat>)
      modifies store`runs
      ensures canceled == if old(store.runs) != [] && old(store.runs)[|old(store.runs)| - 1].status == Running
                          then Some(|old(store.runs)| - 1) else None
      ensures store.runs == if canceled.None? then old(store.runs)
                            else old(store.runs)[canceled.value := old(store.runs)[canceled.value].(status := Canceled)]
    {
      if store.runs == [] || store.runs[|store.runs| - 1].status != Running {
        return None;
      }
      var run := |store.runs| - 1;
      store.UpdateRunStatus(run, Canceled);
      canceled := Some(run);
    }

    /** Continues an answered run where its question was asked. */
    method ResumeAt(run: nat, ghost question: Pending, target: ResumeTarget) returns (outcome: Outcome)
      requires Current(run)
      requires ContinuesAt(Log(run), question, target)
      modifies store`runs, provider, this`partialOutput
      ensures Ended(Now(), run, outcome) && Progress(old(Now()), Now(), run, OwnCalls(question))
      ensures EndsFor(outcome, provider.exchanges, old(provider.exchanges))
      ensures StreamedOn(old(MainStreams(provider.exchanges)), MainStreams(provider.exchanges), old(partialOutput), partialOutput)
    {
      hide EndsFor;
      hide StreamedOn;
      hide Ended;
      hide Progress;
      hide ReadyForModel;
      hide InSkill;
      match target {
        case ResumeMain =>
          outcome := ContinueRun(run);
        case ResumeSkill(invocation) =>
          outcome := ContinueResumedSkill(run, invocation);
      }
    }

    /** Answers the waiting run or starts a new one, up to the point where the call was cut off. */
    method RunWithEvents(request: string) returns (outcome: Outcome)
      requires Valid()
      modifies store, provider, this`partialOutput
      ensures if outcome.InvalidAnswer? then store.runs == old(store.runs) && provider.exchanges == old(provider.exchanges)
              else store.runs != [] && Ended(Now(), |store.runs| - 1, outcome)
      ensures Served(old(Now()), Now(), request, config, accepts, outcome)
      ensures EndsFor(outcome, provider.exchanges, old(provider.exchanges))
      ensures StreamedOn(old(MainStreams(provider.exchanges)), MainStreams(provider.exchanges), old(partialOutput), partialOutput)
    {
      hide RequestedSkillNames;
      hide RecordsRequested;
      hide CallsRequested;
      hide RecordsAnswer;
      hide HoldsConfig;
      hide Advanced;
      hide ContextTools;
      hide ContextMessages;
      hide SessionContext;
      hide ContinuesAt;
      hide OwnCalls;
      hide EndsFor;
      hide StreamedOn;
      hide LogOk;
      hide Summarize;
      hide SessionOk;
      hide TraceOk;
      hide Paused;
      hide Quiet;
      hide LatestQuestion;
      hide Ended;
      hide Progress;
      hide AsksIn;
      ghost var before := Now();
      hide Served;
      hide MainStreams;
      NobodyWaits(store.runs, provider.exchanges);
      store.ReplaceSessionContext(SessionContext(config));
      var waiting := LatestWaitingRun();
      ghost var start := Now();
      StreamedNothing(MainStreams(provider.exchanges), partialOutput);
      match waiting {
        case Some(run) =>
          ghost var steps := Log(run);
          var target := ResumeWaitingRun(run, request);
          if target.Err? {
            outcome := InvalidAnswer(target.error);
            NothingToExplain(outcome, provider.exchanges, provider.exchanges);
            ServedByRefusal(before, Now(), request, config, accepts, outcome);
            return;
          }
          ghost var mid := Now();
          outcome := ResumeAt(run, LatestQuestion(steps, |steps|).value, target.value);
          ProgressTransitive(start, mid, Now(), run, 0, OwnCalls(LatestQuestion(steps, |steps|).value));
          ProgressKeepsSteps(mid, Now(), run, OwnCalls(LatestQuestion(steps, |steps|).value));
          EndedIsNotInvalid(Now(), run, outcome);
          ServedByAnswer(before, Now(), request, config, accepts, outcome, LatestQuestion(steps, |steps|).value);
        case None =>
          var run := StartRun(request);
          ghost var started := Now();
          outcome := ContinueRequestedSkills(run);
          EndedIsNotInvalid(Now(), run, outcome);
          ProgressKeepsSteps(started, Now(), run, MAX_LOOP_ITERATIONS);
          EndedIsSourced(Now(), run, outcome);
          ServedByNewRun(before, started, Now(), request, config, accepts, outcome);
      }
    }

    /**
     * One user request, possibly canceled while the model works. Cancellation marks the run and
     * keeps what was streamed as a checkpoint.
     */
    method Run(request: string) returns (outcome: Outcome)
      requires Valid()
      modifies store, provider, this`partialOutput
      ensures Valid()
      ensures KeepsHistory(old(store.runs), store.runs)
      ensures Served(old(Now()), Now(), request, config, accepts, outcome)
      ensures outcome == Interrupted ==> store.runs != [] && store.runs[|store.runs| - 1].status == Canceled
      ensures outcome != Interrupted && !outcome.InvalidAnswer? ==>
                store.runs != [] && Ended(Now(), |store.runs| - 1, outcome)
      ensures EndsFor(outcome, provider.exchanges, old(provider.exchanges))
      ensures |MainStreams(provider.exchanges)| <= old(|MainStreams(provider.exchanges)|) + 8
      ensures outcome == Interrupted ==>
                Checkpointed(store.runs, MainStreams(provider.exchanges), old(|MainStreams(provider.exchanges)|))
    {
      hide EndsFor;
      hide MainStreams;
      hide LogOk;
      hide Summarize;
      hide SessionOk;
      hide TraceOk;
      hide Paused;
      hide LatestQuestion;
      hide FirstSteps;
      hide Ended;
      hide Served;
      hide SessionValid;
      hide KeepsHistory;
      partialOutput := "";
      ghost var before := Now();
      outcome := RunWithEvents(request);
      EndsWithFewCalls(outcome, provider.exchanges, before.exchanges);
      ServedKeepsHistory(before, Now(), request, config, accepts, outcome);
      if outcome.InvalidAnswer? {
        return;
      }
      ghost var run := |store.runs| - 1;
      EndedIsValid(Now(), run, outcome);
      if outcome == Interrupted {
        ghost var cut := Now();
        var canceled := CancelLatestRunningRun();
        ghost var step := Step(run, CheckpointKind, AssistantOutputCheckpoint(partialOutput));
        ghost var marked := store.runs;
        if partialOutput != "" {
          store.AppendStep(canceled.value, CheckpointKind, AssistantOutputCheckpoint(partialOutput));
        }
        CancellationIsValid(before, cut, Now(), request, config, accepts, marked, step);
      }
    }
  }
}
