// What the run loop reads back from persisted steps: prompts, transcripts, pending questions.
module RunLog {
  import opened Prelude
  import opened RunModel

  // Rendering steps as chat messages

  function ReplaceAll(text: string, from: string, to: string): string
    requires from != ""
  {
    if |text| < |from| then text
    else if from <= text then to + ReplaceAll(text[|from|..], from, to)
    else [text[0]] + ReplaceAll(text[1..], from, to)
  }

  function WorkspaceRelativeReferences(content: string): string {
    ReplaceAll(ReplaceAll(content, "@{/workspace/", "@{"), "@/workspace/", "@")
  }

  function RelativeArgument(argument: Json): Json {
    if !argument.Text? then argument
    else if argument.text == "/workspace" then Text(".")
    else if "/workspace/" <= argument.text then Text(argument.text[|"/workspace/"|..])
    else argument
  }

  function WorkspaceRelativeExecArguments(name: string, arguments: Json): Json {
    if name == "exec" && arguments.Object? && "args" in arguments.fields && arguments.fields["args"].Array?
    then
      var paths := arguments.fields["args"].items;
      Object(arguments.fields["args" := Array(seq(|paths|, i requires 0 <= i < |paths| => RelativeArgument(paths[i])))])
    else arguments
  }

  function ContentOf(item: ResponseItem): seq<AssistantContent> {
    match item
    case TextItem(content) => [TextContent(content)]
    case CallItem(call) => [CallContent(call.(arguments := WorkspaceRelativeExecArguments(call.name, call.arguments)))]
    case ReasoningItem(_) => []
  }

  function Contents(items: seq<ResponseItem>): seq<AssistantContent> {
    if items == [] then [] else Contents(items[..|items| - 1]) + ContentOf(items[|items| - 1])
  }

  /** None when nothing of the response may be shown to a model. */
  function ResponseMessage(messageId: Option<string>, items: seq<ResponseItem>): Option<Message> {
    if Contents(items) == [] then None else Some(Assistant(messageId, Contents(items)))
  }

  function StepMessage(step: Step): Option<Message> {
    match step.payload
    case UserMessage(content) => Some(User(WorkspaceRelativeReferences(content)))
    case AssistantResponse(messageId, items) => ResponseMessage(messageId, items)
    case ToolResult(id, callId, result) => Some(ToolOutput(id, callId, result))
    case _ => None
  }

  function VisibleMessage(step: Step): seq<Message> {
    if step.VisibleToLlm() && StepMessage(step).Some? then [StepMessage(step).value] else []
  }

  /** The chat history of a list of steps. */
  function Chat(steps: seq<Step>): seq<Message> {
    if steps == [] then [] else Chat(steps[..|steps| - 1]) + VisibleMessage(steps[|steps| - 1])
  }

  function ContextMessages(context: seq<ContextItem>): seq<Message> {
    if context == [] then []
    else ContextMessages(context[..|context| - 1]) +
         match context[|context| - 1] { case SystemPrompt(content) => [System(content)] case ToolDefinition(_) => [] }
  }

  function ContextTools(context: seq<ContextItem>): seq<string> {
    if context == [] then []
    else ContextTools(context[..|context| - 1]) +
         match context[|context| - 1] { case SystemPrompt(_) => [] case ToolDefinition(name) => [name] }
  }

  function WithoutSkillTool(tools: seq<string>): seq<string> {
    if tools == [] then []
    else WithoutSkillTool(tools[..|tools| - 1]) +
         if tools[|tools| - 1] == CALL_SKILL_TOOL_NAME then [] else [tools[|tools| - 1]]
  }

  /** The request sent by the main loop when the session holds `steps`. */
  function MainRequest(context: seq<ContextItem>, steps: seq<Step>): Request {
    Request(ContextMessages(context) + Chat(steps), ContextTools(context))
  }

  lemma {:induction false} ChatSnoc(steps: seq<Step>, step: Step)
    ensures Chat(steps + [step]) == Chat(steps) + VisibleMessage(step)
  {
    assert (steps + [step])[..|steps|] == steps;
  }

  // Skill prompts

  predicate ContainsToolCall(step: Step, id: string) {
    step.payload.AssistantResponse? && exists c :: c in Calls(step.payload.items) && c.id == id
  }

  /** Index of the first step of run `run` that holds call `id`, or the number of steps. */
  function FirstCallIndex(steps: seq<Step>, run: nat, id: string): (i: nat)
    ensures i <= |steps|
    ensures i < |steps| ==> steps[i].run == run && ContainsToolCall(steps[i], id)
    ensures forall k :: 0 <= k < i ==> !(steps[k].run == run && ContainsToolCall(steps[k], id))
  {
    if steps == [] then 0
    else
      var n := |steps| - 1;
      var i := FirstCallIndex(steps[..n], run, id);
      if i < n then i else if steps[n].run == run && ContainsToolCall(steps[n], id) then n else n + 1
  }

  function ParentMessages(messages: seq<Message>, steps: seq<Step>, run: nat, id: string): Result<seq<Message>, string> {
    var i := FirstCallIndex(steps, run, id);
    if i < |steps| then Ok(messages + Chat(steps[..i]))
    else Err("parent assistant response for skill invocation was not found: " + id)
  }

  function InjectInstructions(messages: seq<Message>, instructions: string): seq<Message> {
    if exists m :: m in messages && m.System? then AppendToSystem(messages, instructions)
    else [System(instructions)] + messages
  }

  /** Extends the first system message. */
  function AppendToSystem(messages: seq<Message>, instructions: string): seq<Message> {
    if messages == [] then []
    else if messages[0].System? then [System(messages[0].content + "\n\n" + instructions)] + messages[1..]
    else [messages[0]] + AppendToSystem(messages[1..], instructions)
  }

  lemma {:induction false} InjectSpec(messages: seq<Message>, i: nat, instructions: string)
    requires i < |messages| && messages[i].System?
    requires forall k :: 0 <= k < i ==> !messages[k].System?
    ensures AppendToSystem(messages, instructions) ==
            messages[i := System(messages[i].content + "\n\n" + instructions)]
  {
    if i > 0 {
      InjectSpec(messages[1..], i - 1, instructions);
    }
  }

  /** The messages one step adds to the transcript of invocation `id`. */
  function TranscriptEntry(step: Step, id: string): Result<seq<Message>, string> {
    match step.payload
    case SkillAssistantResponse(invocationId, messageId, items) =>
      if invocationId != id then Ok([])
      else
        (match ResponseMessage(messageId, items)
         case Some(message) => Ok([message])
         case None => Err("skill subflow has an empty assistant response"))
    case SkillToolResult(invocationId, callId, providerId, result) =>
      if invocationId != id then Ok([]) else Ok([ToolOutput(callId, providerId, result)])
    case _ => Ok([])
  }

  function Transcript(steps: seq<Step>, id: string): Result<seq<Message>, string> {
    if steps == [] then Ok([])
    else
      match Transcript(steps[..|steps| - 1], id)
      case Err(message) => Err(message)
      case Ok(earlier) =>
        match TranscriptEntry(steps[|steps| - 1], id)
        case Err(message) => Err(message)
        case Ok(entry) => Ok(earlier + entry)
  }

  lemma {:induction false} TranscriptSnoc(steps: seq<Step>, step: Step, id: string)
    ensures Transcript(steps + [step], id) ==
            match Transcript(steps, id) {
              case Err(message) => Err(message)
              case Ok(earlier) =>
                match TranscriptEntry(step, id)
                case Err(message) => Err(message)
                case Ok(entry) => Ok(earlier + entry)
            }
  {
    assert (steps + [step])[..|steps|] == steps;
  }

  /** The part of a skill prompt that precedes the transcript. */
  function SkillPreamble(context: seq<ContextItem>, sessionSteps: seq<Step>, run: nat,
                         invocation: SkillInvocation, skill: Skill): Result<seq<Message>, string>
  {
    match ParentMessages(ContextMessages(context), sessionSteps, run, invocation.id)
    case Err(message) => Err(message)
    case Ok(parent) => Ok(InjectInstructions(parent, skill.instructions) + [User(invocation.task)])
  }

  /** The message list a skill subflow starts from when the log holds `runSteps`. */
  function SkillMessages(context: seq<ContextItem>, prior: seq<Step>, runSteps: seq<Step>, run: nat,
                         invocation: SkillInvocation, skill: Skill): Result<seq<Message>, string>
  {
    match SkillPreamble(context, prior + runSteps, run, invocation, skill)
    case Err(message) => Err(message)
    case Ok(preamble) =>
      match Transcript(runSteps, invocation.id)
      case Err(message) => Err(message)
      case Ok(transcript) => Ok(preamble + transcript)
  }

  function SkillTools(context: seq<ContextItem>): seq<string> {
    WithoutSkillTool(ContextTools(context))
  }

  /** Forgets the provider's id of an assistant message. */
  function EraseId(message: Message): Message {
    if message.Assistant? then message.(messageId := None) else message
  }

  function EraseIds(messages: seq<Message>): (erased: seq<Message>)
    ensures |erased| == |messages|
    ensures forall i :: 0 <= i < |messages| ==> erased[i] == EraseId(messages[i])
  {
    seq(|messages|, i requires 0 <= i < |messages| => EraseId(messages[i]))
  }

  function CountResponses(steps: seq<Step>, id: string): nat {
    if steps == [] then 0
    else
      var last := steps[|steps| - 1].payload;
      CountResponses(steps[..|steps| - 1], id) +
      if last.SkillAssistantResponse? && last.invocationId == id then 1 else 0
  }

  // Pending questions

  datatype Pending =
    | MainQuestion(call: ToolCall)
    | SkillQuestion(invocation: SkillInvocation, call: ToolCall)

  function ResolvedMain(steps: seq<Step>): set<string> {
    set s | s in steps && s.payload.ToolResult? :: s.payload.id
  }

  function ResolvedSkill(steps: seq<Step>): set<(string, string)> {
    set s | s in steps && s.payload.SkillToolResult? :: (s.payload.invocationId, s.payload.id)
  }

  /** The last `human_input` call whose id is not resolved. */
  function UnresolvedHumanInput(calls: seq<ToolCall>, resolved: set<string>): Option<ToolCall> {
    if calls == [] then None
    else
      var last := calls[|calls| - 1];
      if IsHumanInput(last) && last.id !in resolved then Some(last)
      else UnresolvedHumanInput(calls[..|calls| - 1], resolved)
  }

  function InvocationStarted(steps: seq<Step>, id: string): Option<SkillInvocation> {
    if steps == [] then None
    else
      match InvocationStarted(steps[..|steps| - 1], id)
      case Some(invocation) => Some(invocation)
      case None =>
        match steps[|steps| - 1].payload
        case SkillStarted(invocationId, callId, skillName, task) =>
          if invocationId == id then Some(SkillInvocation(invocationId, callId, skillName, task)) else None
        case _ => None
  }

  /** The question one step leaves open, judged against the whole log. */
  function StepQuestion(steps: seq<Step>, step: Step): Option<Pending> {
    match step.payload
    case AssistantResponse(_, items) =>
      (match UnresolvedHumanInput(Calls(items), ResolvedMain(steps))
       case Some(call) => Some(MainQuestion(call))
       case None => None)
    case SkillAssistantResponse(invocationId, _, items) =>
      var resolved := set r | r in ResolvedSkill(steps) && r.0 == invocationId :: r.1;
      (match UnresolvedHumanInput(Calls(items), resolved)
       case Some(call) =>
         (match InvocationStarted(steps, invocationId)
          case Some(invocation) => Some(SkillQuestion(invocation, call))
          case None => None)
       case None => None)
    case _ => None
  }

  /** Searches the first `n` steps backwards. */
  function LatestQuestion(steps: seq<Step>, n: nat): Option<Pending>
    requires n <= |steps|
  {
    if n == 0 then None
    else
      match StepQuestion(steps, steps[n - 1])
      case Some(pending) => Some(pending)
      case None => LatestQuestion(steps, n - 1)
  }

  /** The step that answers a question. */
  function AnswerPayload(pending: Pending, input: string): StepPayload {
    match pending
    case MainQuestion(call) => ToolResult(call.id, call.callId, InputJson(input))
    case SkillQuestion(invocation, call) => SkillToolResult(invocation.id, call.id, call.callId, InputJson(input))
  }

  function RequestedSkillNames(steps: seq<Step>): Option<seq<string>> {
    if steps == [] then None
    else
      match RequestedSkillNames(steps[..|steps| - 1])
      case Some(names) => Some(names)
      case None => if steps[|steps| - 1].payload.SkillsRequested? then Some(steps[|steps| - 1].payload.names) else None
  }

  /** Steps that never reach the main prompt. */
  predicate Auxiliary(step: Step) {
    step.payload.SkillsRequested? || step.payload.SkillStarted? || step.payload.SkillAssistantResponse? ||
    step.payload.SkillToolResult? || step.payload.Error? || step.payload.AssistantOutputCheckpoint?
  }

  function WithoutAuxiliary(steps: seq<Step>): seq<Step> {
    if steps == [] then []
    else WithoutAuxiliary(steps[..|steps| - 1]) +
         if Auxiliary(steps[|steps| - 1]) then [] else [steps[|steps| - 1]]
  }

  /** Every step carries the kind of its payload, as the run loop writes it. */
  predicate WellKinded(steps: seq<Step>) {
    forall i :: 0 <= i < |steps| ==> steps[i].kind == KindOf(steps[i].payload)
  }

  /**
   * Main prompts do not see skill transcripts, errors or checkpoints: deleting those steps
   * leaves the request unchanged.
   */
  lemma {:induction false} MainRequestIgnoresAuxiliary(context: seq<ContextItem>, steps: seq<Step>)
    requires WellKinded(steps)
    ensures MainRequest(context, WithoutAuxiliary(steps)) == MainRequest(context, steps)
  {
    ChatIgnoresAuxiliary(steps);
  }

  lemma {:induction false} ChatIgnoresAuxiliary(steps: seq<Step>)
    requires WellKinded(steps)
    ensures Chat(WithoutAuxiliary(steps)) == Chat(steps)
  {
    if steps != [] {
      var front, last := steps[..|steps| - 1], steps[|steps| - 1];
      ChatIgnoresAuxiliary(front);
      assert last.kind == KindOf(last.payload);
      if Auxiliary(last) {
        assert VisibleMessage(last) == [];
        assert WithoutAuxiliary(steps) == WithoutAuxiliary(front);
      } else {
        ChatSnoc(WithoutAuxiliary(front), last);
      }
    }
  }

  /** Two histories that differ only in auxiliary steps send the same main prompt. */
  lemma {:induction false} EqualResultsEqualPrompts(context: seq<ContextItem>, left: seq<Step>, right: seq<Step>)
    requires WellKinded(left) && WellKinded(right)
    requires WithoutAuxiliary(left) == WithoutAuxiliary(right)
    ensures MainRequest(context, left) == MainRequest(context, right)
  {
    MainRequestIgnoresAuxiliary(context, left);
    MainRequestIgnoresAuxiliary(context, right);
  }

  // Stability of the skill prompt while steps are appended

  lemma {:induction false} FirstCallIndexSnoc(steps: seq<Step>, step: Step, run: nat, id: string)
    requires FirstCallIndex(steps, run, id) < |steps|
    ensures FirstCallIndex(steps + [step], run, id) == FirstCallIndex(steps, run, id)
  {
    assert (steps + [step])[..|steps|] == steps;
  }

  /** Appending steps never changes the parent part of a skill prompt. */
  lemma {:induction false} ParentIsStable(messages: seq<Message>, steps: seq<Step>, more: seq<Step>, run: nat, id: string)
    requires ParentMessages(messages, steps, run, id).Ok?
    ensures ParentMessages(messages, steps + more, run, id) == ParentMessages(messages, steps, run, id)
  {
    if more == [] {
      assert steps + more == steps;
    } else {
      var front, last := more[..|more| - 1], more[|more| - 1];
      ParentIsStable(messages, steps, front, run, id);
      FirstCallIndexSnoc(steps, last, run, id);
      assert steps + more == (steps + front) + [last];
      assert FirstCallIndex(steps + front, run, id) <= |steps + front|;
      assert ParentMessages(messages, steps + front, run, id).Ok?;
      FirstCallIndexSnoc(steps + front, last, run, id);
      var i := FirstCallIndex(steps + front, run, id);
      assert (steps + more)[..i] == (steps + front)[..i];
    }
  }

  /**
   * The parent part is exactly the main prompt that produced the call: whatever is recorded
   * after the response that holds call `id`, the skill sees the messages before it.
   */
  lemma {:induction false} ParentIsTheCallingPrompt(context: seq<ContextItem>, before: seq<Step>, response: Step, after: seq<Step>, run: nat, id: string)
    requires response.run == run && ContainsToolCall(response, id)
    requires forall s :: s in before ==> !(s.run == run && ContainsToolCall(s, id))
    ensures ParentMessages(ContextMessages(context), before + [response] + after, run, id) ==
            Ok(MainRequest(context, before).messages)
  {
    var upTo := before + [response];
    var i := FirstCallIndex(upTo, run, id);
    assert upTo[|before|] == response;
    assert forall k :: 0 <= k < |before| ==> upTo[k] in before;
    assert upTo[..i] == before;
    ParentIsStable(ContextMessages(context), upTo, after, run, id);
  }

  lemma {:induction false} PreambleFromCaller(context: seq<ContextItem>, before: seq<Step>, response: Step, after: seq<Step>, run: nat,
                                              invocation: SkillInvocation, skill: Skill)
    requires response.run == run && ContainsToolCall(response, invocation.id)
    requires forall s :: s in before ==> !(s.run == run && ContainsToolCall(s, invocation.id))
    ensures SkillPreamble(context, before + [response] + after, run, invocation, skill) ==
            Ok(InjectInstructions(MainRequest(context, before).messages, skill.instructions) + [User(invocation.task)])
  {
    hide ContainsToolCall;
    hide ParentMessages;
    hide MainRequest;
    hide InjectInstructions;
    ParentIsTheCallingPrompt(context, before, response, after, run, invocation.id);
  }

  /** One more step of the run extends the skill prompt by exactly its transcript entry. */
  lemma {:induction false} SkillMessagesSnoc(context: seq<ContextItem>, prior: seq<Step>, steps: seq<Step>, step: Step, run: nat,
                                             invocation: SkillInvocation, skill: Skill)
    requires SkillMessages(context, prior, steps, run, invocation, skill).Ok?
    ensures SkillMessages(context, prior, steps + [step], run, invocation, skill) ==
            match TranscriptEntry(step, invocation.id) {
              case Err(message) => Err(message)
              case Ok(entry) => Ok(SkillMessages(context, prior, steps, run, invocation, skill).value + entry)
            }
  {
    hide TranscriptEntry;
    TranscriptSnoc(steps, step, invocation.id);
    ParentIsStable(ContextMessages(context), prior + steps, [step], run, invocation.id);
    assert prior + (steps + [step]) == prior + steps + [step];
    var preamble := SkillPreamble(context, prior + steps, run, invocation, skill).value;
    var transcript := Transcript(steps, invocation.id).value;
    match TranscriptEntry(step, invocation.id) {
      case Ok(entry) => assert preamble + (transcript + entry) == preamble + transcript + entry;
      case Err(_) =>
    }
  }

  lemma {:induction false} PauseEntries(run: nat, invocation: SkillInvocation, messageId: Option<string>, items: seq<ResponseItem>, input: string)
    requires PausesSkill(items)
    ensures Contents(items) != []
    ensures var question := Calls(items)[0];
            && TranscriptEntry(Step(run, SkillExecutionKind, SkillAssistantResponse(invocation.id, messageId, items)), invocation.id) ==
               Ok([Assistant(messageId, Contents(items))])
            && TranscriptEntry(Step(run, SkillExecutionKind, AnswerPayload(SkillQuestion(invocation, question), input)), invocation.id) ==
               Ok([ToolOutput(question.id, question.callId, InputJson(input))])
  {
    CallsAreShown(items);
  }

  lemma {:induction false} SkillMessagesTwice(context: seq<ContextItem>, prior: seq<Step>, steps: seq<Step>, a: Step, b: Step, run: nat,
                                              invocation: SkillInvocation, skill: Skill, x: Message, y: Message)
    requires SkillMessages(context, prior, steps, run, invocation, skill).Ok?
    requires TranscriptEntry(a, invocation.id) == Ok([x]) && TranscriptEntry(b, invocation.id) == Ok([y])
    ensures SkillMessages(context, prior, steps + [a] + [b], run, invocation, skill) ==
            Ok(SkillMessages(context, prior, steps, run, invocation, skill).value + [x, y])
  {
    hide TranscriptEntry;
    hide SkillMessages;
    SkillMessagesSnoc(context, prior, steps, a, run, invocation, skill);
    SkillMessagesSnoc(context, prior, steps + [a], b, run, invocation, skill);
    var messages := SkillMessages(context, prior, steps, run, invocation, skill).value;
    assert messages + [x] + [y] == messages + [x, y];
  }

  /**
   * A pause and its answer extend the replayed prompt by the pausing response and the answer,
   * and by nothing else.
   */
  lemma {:induction false} ReplayAcrossPause(context: seq<ContextItem>, prior: seq<Step>, steps: seq<Step>, run: nat,
                                             invocation: SkillInvocation, skill: Skill,
                                             messageId: Option<string>, items: seq<ResponseItem>, input: string)
    requires SkillMessages(context, prior, steps, run, invocation, skill).Ok?
    requires PausesSkill(items)
    ensures Contents(items) != []
    ensures
      var question := Calls(items)[0];
      var paused := steps + [Step(run, SkillExecutionKind, SkillAssistantResponse(invocation.id, messageId, items))];
      var answered := paused + [Step(run, SkillExecutionKind, AnswerPayload(SkillQuestion(invocation, question), input))];
      SkillMessages(context, prior, answered, run, invocation, skill) ==
      Ok(SkillMessages(context, prior, steps, run, invocation, skill).value +
         [Assistant(messageId, Contents(items)), ToolOutput(question.id, question.callId, InputJson(input))])
  {
    PauseEntries(run, invocation, messageId, items, input);
    hide TranscriptEntry;
    hide SkillMessages;
    hide Contents;
    hide Calls;
    var question := Calls(items)[0];
    var pause := Step(run, SkillExecutionKind, SkillAssistantResponse(invocation.id, messageId, items));
    var answer := Step(run, SkillExecutionKind, AnswerPayload(SkillQuestion(invocation, question), input));
    SkillMessagesTwice(context, prior, steps, pause, answer, run, invocation, skill,
                       Assistant(messageId, Contents(items)), ToolOutput(question.id, question.callId, InputJson(input)));
  }

  /** A response with a tool call is never empty when shown to a model. */
  lemma {:induction false} CallsAreShown(items: seq<ResponseItem>)
    requires Calls(items) != []
    ensures Contents(items) != []
  {
    if !items[|items| - 1].CallItem? {
      CallsAreShown(items[..|items| - 1]);
    }
  }
}
