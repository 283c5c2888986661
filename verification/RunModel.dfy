// Records of a run: messages, model replies, persisted steps and session context.
module RunModel {
  import opened Prelude
  import opened Decimal

  datatype Json =
    | Null
    | Bool(flag: bool)
    | Number(number: int)
    | Text(text: string)
    | Array(items: seq<Json>)
    | Object(fields: map<string, Json>)

  datatype ToolCall = ToolCall(id: string, callId: Option<string>, name: string, arguments: Json)

  /** One item of a recorded assistant response. */
  datatype ResponseItem =
    | TextItem(content: string)
    | ReasoningItem(content: string)
    | CallItem(call: ToolCall)

  datatype RunStatus = Running | WaitingForHumanInput | Completed | Failed | Canceled

  datatype StepKind =
    | UserMessageKind
    | AssistantResponseKind
    | CheckpointKind
    | ToolResultKind
    | SkillExecutionKind
    | ErrorKind

  datatype StepPayload =
    | UserMessage(content: string)
    | AssistantResponse(messageId: Option<string>, items: seq<ResponseItem>)
    | AssistantOutputCheckpoint(content: string)
    | ToolResult(id: string, callId: Option<string>, result: Json)
    | SkillsRequested(names: seq<string>)
    | SkillStarted(invocationId: string, callId: Option<string>, skillName: string, task: string)
    | SkillAssistantResponse(invocationId: string, messageId: Option<string>, items: seq<ResponseItem>)
    | SkillToolResult(invocationId: string, id: string, callId: Option<string>, result: Json)
    | Error(message: string)

  /** A persisted step; `run` is the number in the run part of its id. */
  datatype Step = Step(run: nat, kind: StepKind, payload: StepPayload)
  {
    predicate VisibleToLlm() {
      kind == UserMessageKind || kind == AssistantResponseKind || kind == ToolResultKind
    }
  }

  function KindOf(payload: StepPayload): StepKind {
    match payload
    case UserMessage(_) => UserMessageKind
    case AssistantResponse(_, _) => AssistantResponseKind
    case AssistantOutputCheckpoint(_) => CheckpointKind
    case ToolResult(_, _, _) => ToolResultKind
    case SkillsRequested(_) => SkillExecutionKind
    case SkillStarted(_, _, _, _) => SkillExecutionKind
    case SkillAssistantResponse(_, _, _) => SkillExecutionKind
    case SkillToolResult(_, _, _, _) => SkillExecutionKind
    case Error(_) => ErrorKind
  }

  datatype RunRecord = RunRecord(request: string, status: RunStatus, steps: seq<Step>)

  /** Static prompt material of a session. */
  datatype ContextItem = SystemPrompt(content: string) | ToolDefinition(name: string)

  datatype AssistantContent = TextContent(text: string) | CallContent(call: ToolCall)

  /** Chat messages as the model sees them. */
  datatype Message =
    | System(content: string)
    | User(text: string)
    | ToolOutput(id: string, callId: Option<string>, output: Json)
    | Assistant(messageId: Option<string>, parts: seq<AssistantContent>)

  datatype Request = Request(messages: seq<Message>, tools: seq<string>)

  /** One element of a model reply, before it is recorded. */
  datatype Choice =
    | TextChoice(text: string)
    | CallChoice(call: ToolCall)
    | ReasoningChoice(display: string)
    | ImageChoice

  /** `streamed` is the text shown to the client before the call ended. */
  datatype ModelReply =
    | Reply(messageId: Option<string>, choice: seq<Choice>, streamed: string)
    | ModelError(message: string, streamed: string)
    | Aborted(streamed: string)

  datatype AssistantTurn = AssistantTurn(finalAnswer: string, toolCalls: seq<ToolCall>, items: seq<ResponseItem>)

  datatype Skill = Skill(name: string, instructions: string)

  datatype SkillInvocation = SkillInvocation(id: string, callId: Option<string>, skillName: string, task: string)

  /** Inputs of one `run` call: what the caller discovered before starting it. */
  datatype Config = Config(systemPrompt: string, tools: seq<string>, skills: seq<Skill>, requested: seq<Skill>)

  const MAX_LOOP_ITERATIONS: nat := 8
  const HUMAN_INPUT_TOOL_NAME := "human_input"
  const CALL_SKILL_TOOL_NAME := "call_skill"
  const EXPLICIT_PREFIX := "jux_explicit_skill_"

  function ExplicitSkillInvocationId(index: nat): string {
    EXPLICIT_PREFIX + Digits(index)
  }

  predicate IsExplicitId(id: string) {
    StartsWith(id, EXPLICIT_PREFIX)
  }

  /** The ids of the first `n` explicitly requested skills. */
  function ExplicitIds(n: nat): (ids: seq<string>)
    ensures |ids| == n && forall k :: 0 <= k < n ==> ids[k] == ExplicitSkillInvocationId(k)
  {
    seq(n, k requires 0 <= k => ExplicitSkillInvocationId(k))
  }

  lemma {:induction false} ExplicitIdsInjective(i: nat, j: nat)
    requires ExplicitSkillInvocationId(i) == ExplicitSkillInvocationId(j)
    ensures i == j
  {
    assert Digits(i) == ExplicitSkillInvocationId(i)[|EXPLICIT_PREFIX|..];
    assert Digits(j) == ExplicitSkillInvocationId(j)[|EXPLICIT_PREFIX|..];
    ValueOfDigits(i);
    ValueOfDigits(j);
  }

  function Calls(items: seq<ResponseItem>): seq<ToolCall> {
    if items == [] then []
    else Calls(items[..|items| - 1]) +
         match items[|items| - 1] { case CallItem(call) => [call] case _ => [] }
  }

  function Ids(calls: seq<ToolCall>): (ids: seq<string>)
    ensures |ids| == |calls| && forall k :: 0 <= k < |calls| ==> ids[k] == calls[k].id
  {
    seq(|calls|, k requires 0 <= k < |calls| => calls[k].id)
  }

  function IdSet(calls: seq<ToolCall>): set<string> {
    set c | c in calls :: c.id
  }

  predicate DistinctIds(calls: seq<ToolCall>) {
    forall i, j :: 0 <= i < j < |calls| ==> calls[i].id != calls[j].id
  }

  predicate IsHumanInput(call: ToolCall) {
    call.name == HUMAN_INPUT_TOOL_NAME
  }

  predicate HasHumanInput(calls: seq<ToolCall>) {
    exists c :: c in calls && IsHumanInput(c)
  }

  /** A skill response that makes the subflow wait for a person. */
  predicate PausesSkill(items: seq<ResponseItem>) {
    |Calls(items)| == 1 && IsHumanInput(Calls(items)[0])
  }

  predicate IsError(result: Json, message: string) {
    && result.Object? && result.fields.Keys == {"success", "error"}
    && result.fields["success"] == Bool(false) && result.fields["error"] == Text(message)
  }

  predicate IsReport(result: Json, skillName: string, summary: string) {
    && result.Object? && result.fields.Keys == {"success", "skill", "summary"}
    && result.fields["success"] == Bool(true)
    && result.fields["skill"] == Text(skillName) && result.fields["summary"] == Text(summary)
  }

  predicate IsInput(result: Json, input: string) {
    result.Object? && result.fields.Keys == {"input"} && result.fields["input"] == Text(input)
  }

  function ErrorJson(message: string): (result: Json)
    ensures IsError(result, message)
  {
    Object(map["success" := Bool(false), "error" := Text(message)])
  }

  function SkillResultJson(skillName: string, summary: string): (result: Json)
    ensures IsReport(result, skillName, summary)
  {
    Object(map["success" := Bool(true), "skill" := Text(skillName), "summary" := Text(summary)])
  }

  function InputJson(input: string): (result: Json)
    ensures IsInput(result, input)
  {
    Object(map["input" := Text(input)])
  }

  function SkillArguments(name: string, task: string): Json {
    Object(map["name" := Text(name), "task" := Text(task)])
  }

  /** The arguments are an object with these fields, among others, or the array of both texts. */
  predicate NamesSkill(arguments: Json, name: string, task: string) {
    || (&& arguments.Object? && "name" in arguments.fields && "task" in arguments.fields
        && arguments.fields["name"] == Text(name) && arguments.fields["task"] == Text(task))
    || arguments == Array([Text(name), Text(task)])
  }

  /** Reads `call_skill` arguments from an object, or from a two-element array. */
  function ParseSkillArguments(arguments: Json): (parsed: Option<(string, string)>)
    ensures parsed.Some? ==> NamesSkill(arguments, parsed.value.0, parsed.value.1)
    ensures parsed.None? ==> forall name, task :: !NamesSkill(arguments, name, task)
  {
    match arguments
    case Object(fields) =>
      if "name" in fields && "task" in fields && fields["name"].Text? && fields["task"].Text?
      then Some((fields["name"].text, fields["task"].text)) else None
    case Array(items) =>
      if |items| == 2 && items[0].Text? && items[1].Text? then Some((items[0].text, items[1].text)) else None
    case _ => None
  }

  /** Skill `i`, and no earlier one has its name. */
  predicate IsFirstSkill(skills: seq<Skill>, i: int, skill: Skill) {
    0 <= i < |skills| && skills[i] == skill && forall k :: 0 <= k < i ==> skills[k].name != skill.name
  }

  /** The first skill of that name. */
  function FindSkill(skills: seq<Skill>, name: string): (found: Option<Skill>)
    ensures found.Some? ==> exists i :: IsFirstSkill(skills, i, found.value) && found.value.name == name
    ensures found.None? ==> forall s :: s in skills ==> s.name != name
  {
    if skills == [] then None
    else if skills[0].name == name then assert IsFirstSkill(skills, 0, skills[0]); Some(skills[0])
    else
      var found := FindSkill(skills[1..], name);
      assert found.Some? ==> exists i :: IsFirstSkill(skills, i, found.value) by {
        if found.Some? {
          var i :| IsFirstSkill(skills[1..], i, found.value);
          assert IsFirstSkill(skills, i + 1, found.value);
        }
      }
      found
  }

  // Model replies

  function ItemOf(choice: Choice): seq<ResponseItem> {
    match choice
    case TextChoice(text) => [TextItem(text)]
    case CallChoice(call) => [CallItem(call)]
    case ReasoningChoice(display) => if display == "" then [] else [ReasoningItem(display)]
    case ImageChoice => []
  }

  function ItemsOf(choices: seq<Choice>): seq<ResponseItem> {
    if choices == [] then [] else ItemsOf(choices[..|choices| - 1]) + ItemOf(choices[|choices| - 1])
  }

  function TextOf(items: seq<ResponseItem>): string {
    if items == [] then ""
    else TextOf(items[..|items| - 1]) +
         match items[|items| - 1] { case TextItem(content) => content case _ => "" }
  }

  /** A reply the run loop can record. */
  predicate Usable(reply: ModelReply) {
    reply.Reply? && ImageChoice !in reply.choice
  }

  lemma {:induction false} ItemsSnoc(items: seq<ResponseItem>, item: ResponseItem)
    ensures Calls(items + [item]) == Calls(items) + (if item.CallItem? then [item.call] else [])
    ensures TextOf(items + [item]) == TextOf(items) + (if item.TextItem? then item.content else "")
  {
    assert (items + [item])[..|items|] == items;
  }

  /** The assumption on providers: call ids are new in the run and never explicit-skill ids. */
  predicate FreshReply(reply: ModelReply, taken: set<string>) {
    reply.Reply? ==>
      var calls := Calls(ItemsOf(reply.choice));
      DistinctIds(calls) && forall c :: c in calls ==> c.id !in taken && !IsExplicitId(c.id)
  }
}
