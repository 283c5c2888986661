// What a prompt shows of the log it was built from, said of the messages themselves.
module Prompts {
  import opened Prelude
  import opened RunModel
  import opened RunLog

  // Texts

  function Join(pieces: seq<string>, separator: string): string {
    if pieces == [] then ""
    else if |pieces| == 1 then pieces[0]
    else pieces[0] + separator + Join(pieces[1..], separator)
  }

  /** Cut at every occurrence of `from`, the pieces are glued together again with `to`. */
  ghost predicate ReplacesBetween(text: string, from: string, to: string, result: string, pieces: seq<string>) {
    && pieces != []
    && Join(pieces, from) == text
    && Join(pieces, to) == result
    && forall i :: 0 <= i < |pieces| ==> !Contains(pieces[i], from)
  }

  ghost predicate Replaces(text: string, from: string, to: string, result: string) {
    exists pieces :: ReplacesBetween(text, from, to, result, pieces)
  }

  lemma {:induction false} JoinCons(first: string, pieces: seq<string>, separator: string)
    requires pieces != []
    ensures Join([first] + pieces, separator) == first + separator + Join(pieces, separator)
  {
    assert ([first] + pieces)[1..] == pieces;
  }

  /** More text in front of the first piece. */
  lemma {:induction false} JoinFront(front: string, pieces: seq<string>, separator: string)
    requires pieces != []
    ensures Join(pieces[0 := front + pieces[0]], separator) == front + Join(pieces, separator)
  {
    var more := pieces[0 := front + pieces[0]];
    assert more[1..] == pieces[1..];
    if |pieces| > 1 {
      assert front + pieces[0] + separator + Join(pieces[1..], separator) == front + (pieces[0] + separator + Join(pieces[1..], separator));
    }
  }

  lemma {:induction false} ContainsStep(c: char, text: string, part: string)
    requires part != "" && !(part <= [c] + text) && !Contains(text, part)
    ensures !Contains([c] + text, part)
  {
    forall i | 0 <= i <= |[c] + text|
      ensures !(part <= ([c] + text)[i..])
    {
      if i > 0 {
        assert ([c] + text)[i..] == text[i - 1..];
      } else {
        assert ([c] + text)[0..] == [c] + text;
      }
    }
  }

  lemma {:induction false} ReplacementReplaces(text: string, from: string, to: string) returns (pieces: seq<string>)
    requires NoOverlap(from)
    ensures ReplacesBetween(text, from, to, ReplaceAll(text, from, to), pieces)
    decreases |text|
  {
    if |text| < |from| {
      pieces := [text];
    } else if from <= text {
      var rest := ReplacementReplaces(text[|from|..], from, to);
      pieces := [""] + rest;
      JoinCons("", rest, from);
      JoinCons("", rest, to);
      assert "" + from + text[|from|..] == text;
    } else {
      var rest := ReplacementReplaces(text[1..], from, to);
      pieces := rest[0 := [text[0]] + rest[0]];
      JoinFront([text[0]], rest, from);
      JoinFront([text[0]], rest, to);
      assert text == [text[0]] + text[1..];
      FirstPieceLeads(rest, from);
      NoPrefix(from, [text[0]] + rest[0], text);
      ContainsStep(text[0], rest[0], from);
    }
  }

  lemma {:induction false} NoPrefix(a: string, b: string, c: string)
    requires b <= c && !(a <= c)
    ensures !(a <= b)
  {
  }

  lemma {:induction false} FirstPieceLeads(pieces: seq<string>, separator: string)
    requires pieces != []
    ensures pieces[0] <= Join(pieces, separator)
  {
  }

  /** The text begins with a character that it does not have again. */
  predicate NoOverlap(text: string) {
    text != "" && forall i :: 0 < i < |text| ==> text[i] != text[0]
  }

  lemma {:induction false} SamePlace(from: string, p: string, a: string, q: string, b: string)
    requires p + from + a == q + from + b && |p| < |q| < |p| + |from|
    ensures from[|q| - |p|] == from[0]
  {
    assert (p + from + a)[|q|] == from[|q| - |p|] && (q + from + b)[|q|] == from[0];
  }

  /** A separator that comes before the end of a longer first piece is inside it. */
  lemma {:induction false} SeparatorInside(from: string, p: string, a: string, q: string, b: string)
    requires NoOverlap(from) && p + from + a == q + from + b && |p| < |q|
    ensures Contains(q, from)
  {
    var text := q + from + b;
    if |q| < |p| + |from| {
      SamePlace(from, p, a, q, b);
    } else {
      assert q[|p|..][..|from|] == text[|p|..|p| + |from|] == (p + from + a)[|p|..|p| + |from|] == from;
      assert from <= q[|p|..];
    }
  }

  lemma {:induction false} FirstPieceIsFixed(from: string, p: string, a: string, q: string, b: string)
    requires NoOverlap(from) && !Contains(p, from) && !Contains(q, from)
    requires p + from + a == q + from + b
    ensures p == q && a == b
  {
    if |p| < |q| {
      SeparatorInside(from, p, a, q, b);
    } else if |q| < |p| {
      SeparatorInside(from, q, b, p, a);
    } else {
      var text := p + from + a;
      assert p == text[..|p|] == (q + from + b)[..|p|] == q;
      assert a == text[|p| + |from|..] == (q + from + b)[|p| + |from|..] == b;
    }
  }

  /** Two pieces or more hold the separator. */
  lemma {:induction false} SeparatorOccurs(pieces: seq<string>, separator: string)
    requires |pieces| > 1
    ensures Contains(Join(pieces, separator), separator)
  {
    assert separator <= Join(pieces, separator)[|pieces[0]|..];
  }

  /** There is only one way to replace. */
  lemma {:induction false} PiecesAreFixed(from: string, pieces: seq<string>, others: seq<string>)
    requires NoOverlap(from) && pieces != [] && others != []
    requires Join(pieces, from) == Join(others, from)
    requires forall i :: 0 <= i < |pieces| ==> !Contains(pieces[i], from)
    requires forall i :: 0 <= i < |others| ==> !Contains(others[i], from)
    ensures pieces == others
  {
    if |pieces| > 1 && |others| > 1 {
      FirstPieceIsFixed(from, pieces[0], Join(pieces[1..], from), others[0], Join(others[1..], from));
      PiecesAreFixed(from, pieces[1..], others[1..]);
      assert pieces == [pieces[0]] + pieces[1..] && others == [others[0]] + others[1..];
    } else if |pieces| > 1 {
      SeparatorOccurs(pieces, from);
    } else if |others| > 1 {
      SeparatorOccurs(others, from);
    }
  }

  lemma {:induction false} ReplacementIsFixed(text: string, from: string, to: string, a: string, b: string)
    requires NoOverlap(from) && Replaces(text, from, to, a) && Replaces(text, from, to, b)
    ensures a == b
    ensures !Contains(text, from) ==> a == text
  {
    var p :| ReplacesBetween(text, from, to, a, p);
    var q :| ReplacesBetween(text, from, to, b, q);
    PiecesAreFixed(from, p, q);
    if !Contains(text, from) {
      assert ReplacesBetween(text, from, to, text, [text]);
      PiecesAreFixed(from, p, [text]);
    }
  }

  const BRACED := "@{/workspace/"
  const PLAIN := "@/workspace/"

  /** References into the workspace have lost its prefix, in braces first and then without. */
  ghost predicate CarriesText(content: string, shown: string) {
    exists middle :: Replaces(content, BRACED, "@{", middle) && Replaces(middle, PLAIN, "@", shown)
  }

  /** A text is shown in one way only, and as it is when it has no such reference. */
  lemma {:induction false} TextIsFixed(content: string, a: string, b: string)
    requires CarriesText(content, a) && CarriesText(content, b)
    ensures a == b
    ensures !Contains(content, BRACED) && !Contains(content, PLAIN) ==> a == content
  {
    assert NoOverlap(BRACED) && NoOverlap(PLAIN);
    var m :| Replaces(content, BRACED, "@{", m) && Replaces(m, PLAIN, "@", a);
    var n :| Replaces(content, BRACED, "@{", n) && Replaces(n, PLAIN, "@", b);
    hide Contains;
    hide NoOverlap;
    ReplacementIsFixed(content, BRACED, "@{", m, n);
    ReplacementIsFixed(m, PLAIN, "@", a, b);
  }

  lemma {:induction false} ReferencesAreCarried(content: string)
    ensures CarriesText(content, WorkspaceRelativeReferences(content))
  {
    assert NoOverlap(BRACED) && NoOverlap(PLAIN);
    var middle := ReplaceAll(content, BRACED, "@{");
    var p := ReplacementReplaces(content, BRACED, "@{");
    var q := ReplacementReplaces(middle, PLAIN, "@");
    assert Replaces(content, BRACED, "@{", middle);
    assert Replaces(middle, PLAIN, "@", ReplaceAll(middle, PLAIN, "@"));
  }

  // Items

  predicate IsContent(item: ResponseItem) {
    item.TextItem? || item.CallItem?
  }

  /** A path argument is relative to the workspace. */
  predicate CarriesPath(argument: Json, shown: Json) {
    match argument
    case Text(text) =>
      if text == "/workspace" then shown == Text(".")
      else if StartsWith(text, "/workspace/") then shown.Text? && text == "/workspace/" + shown.text
      else shown == argument
    case _ => shown == argument
  }

  /** Only the elements of an array under "args" can change. */
  predicate CarriesArguments(arguments: Json, shown: Json) {
    if arguments.Object? && "args" in arguments.fields && arguments.fields["args"].Array? then
      && shown.Object?
      && shown.fields.Keys == arguments.fields.Keys
      && (forall key :: key in arguments.fields && key != "args" ==> shown.fields[key] == arguments.fields[key])
      && shown.fields["args"].Array?
      && |shown.fields["args"].items| == |arguments.fields["args"].items|
      && forall i :: 0 <= i < |arguments.fields["args"].items| ==>
           CarriesPath(arguments.fields["args"].items[i], shown.fields["args"].items[i])
    else shown == arguments
  }

  /** A text is shown as it is, a call with its ids, its name and its arguments. */
  predicate CarriesItem(item: ResponseItem, part: AssistantContent) {
    match item
    case TextItem(content) => part == TextContent(content)
    case CallItem(call) =>
      && part.CallContent?
      && part.call.id == call.id && part.call.callId == call.callId && part.call.name == call.name
      && if call.name == "exec" then CarriesArguments(call.arguments, part.call.arguments) else part.call.arguments == call.arguments
    case ReasoningItem(_) => false
  }

  lemma {:induction false} PathIsCarried(argument: Json)
    ensures CarriesPath(argument, RelativeArgument(argument))
  {
  }

  lemma {:induction false} ItemIsCarried(item: ResponseItem)
    ensures if IsContent(item) then |ContentOf(item)| == 1 && CarriesItem(item, ContentOf(item)[0]) else ContentOf(item) == []
  {
    if item.CallItem? {
      var arguments := item.call.arguments;
      if arguments.Object? && "args" in arguments.fields && arguments.fields["args"].Array? {
        forall i | 0 <= i < |arguments.fields["args"].items|
          ensures CarriesPath(arguments.fields["args"].items[i], RelativeArgument(arguments.fields["args"].items[i]))
        {
          PathIsCarried(arguments.fields["args"].items[i]);
        }
        hide RelativeArgument;
        hide CarriesPath;
      }
    }
  }

  lemma {:induction false} ItemsAreCarried(items: seq<ResponseItem>)
    ensures Projects(items, Contents(items), IsContent, CarriesItem)
  {
    hide Projects;
    hide ContentOf;
    hide IsContent;
    hide CarriesItem;
    if items == [] {
      ProjectsNone(IsContent, CarriesItem);
    } else {
      var n := |items| - 1;
      ItemsAreCarried(items[..n]);
      ItemIsCarried(items[n]);
      ProjectsSnoc(items[..n], Contents(items[..n]), IsContent, CarriesItem, items[n], ContentOf(items[n]));
      assert items == items[..n] + [items[n]];
    }
  }

  lemma {:induction false} SomeContent(items: seq<ResponseItem>)
    ensures Contents(items) != [] <==> exists item :: item in items && IsContent(item)
  {
    hide ContentOf;
    hide IsContent;
    hide CarriesItem;
    if items != [] {
      var n := |items| - 1;
      SomeContent(items[..n]);
      ItemIsCarried(items[n]);
      assert items == items[..n] + [items[n]];
    }
  }

  // Steps

  ghost predicate IsShown(step: Step) {
    && step.kind in {UserMessageKind, AssistantResponseKind, ToolResultKind}
    && match step.payload
       case UserMessage(_) => true
       case AssistantResponse(_, items) => exists item :: item in items && IsContent(item)
       case ToolResult(_, _, _) => true
       case _ => false
  }

  /** The message of a response: its texts and calls, in order. */
  ghost predicate CarriesResponse(messageId: Option<string>, items: seq<ResponseItem>, message: Message) {
    message.Assistant? && message.messageId == messageId && Projects(items, message.parts, IsContent, CarriesItem)
  }

  /** A message says what its step recorded. */
  ghost predicate Carries(step: Step, message: Message) {
    match step.payload
    case UserMessage(content) => message.User? && CarriesText(content, message.text)
    case AssistantResponse(messageId, items) => CarriesResponse(messageId, items, message)
    case ToolResult(id, callId, result) => message == ToolOutput(id, callId, result)
    case _ => false
  }

  lemma {:induction false} ResponseIsCarried(messageId: Option<string>, items: seq<ResponseItem>)
    ensures ResponseMessage(messageId, items).Some? <==> exists item :: item in items && IsContent(item)
    ensures ResponseMessage(messageId, items).Some? ==> CarriesResponse(messageId, items, ResponseMessage(messageId, items).value)
  {
    ItemsAreCarried(items);
    SomeContent(items);
    hide Projects;
  }

  lemma {:induction false} StepIsCarried(step: Step)
    ensures if IsShown(step) then |VisibleMessage(step)| == 1 && Carries(step, VisibleMessage(step)[0]) else VisibleMessage(step) == []
  {
    hide CarriesText;
    hide CarriesResponse;
    hide WorkspaceRelativeReferences;
    hide ResponseMessage;
    hide IsContent;
    match step.payload {
      case UserMessage(content) => ReferencesAreCarried(content);
      case AssistantResponse(messageId, items) => ResponseIsCarried(messageId, items);
      case _ =>
    }
  }

  lemma {:induction false} ChatIsCarried(steps: seq<Step>)
    ensures Projects(steps, Chat(steps), IsShown, Carries)
  {
    hide Projects;
    hide IsShown;
    hide Carries;
    hide VisibleMessage;
    if steps == [] {
      ProjectsNone(IsShown, Carries);
    } else {
      var n := |steps| - 1;
      ChatIsCarried(steps[..n]);
      StepIsCarried(steps[n]);
      ProjectsSnoc(steps[..n], Chat(steps[..n]), IsShown, Carries, steps[n], VisibleMessage(steps[n]));
      assert steps == steps[..n] + [steps[n]];
    }
  }

  // Context

  predicate IsPrompt(item: ContextItem) {
    item.SystemPrompt?
  }

  predicate CarriesPrompt(item: ContextItem, message: Message) {
    item.SystemPrompt? && message == System(item.content)
  }

  predicate IsTool(item: ContextItem) {
    item.ToolDefinition?
  }

  predicate IsSkillTool(item: ContextItem) {
    item.ToolDefinition? && item.name != CALL_SKILL_TOOL_NAME
  }

  predicate CarriesTool(item: ContextItem, name: string) {
    item.ToolDefinition? && name == item.name
  }

  lemma {:induction false} ContextIsCarried(context: seq<ContextItem>)
    ensures Projects(context, ContextMessages(context), IsPrompt, CarriesPrompt)
    ensures Projects(context, ContextTools(context), IsTool, CarriesTool)
    ensures Projects(context, SkillTools(context), IsSkillTool, CarriesTool)
  {
    if context == [] {
      ProjectsNone(IsPrompt, CarriesPrompt);
      ProjectsNone(IsTool, CarriesTool);
      ProjectsNone(IsSkillTool, CarriesTool);
    } else {
      var n := |context| - 1;
      var front, item := context[..n], context[n];
      ContextIsCarried(front);
      assert context == front + [item];
      ProjectsSnoc(front, ContextMessages(front), IsPrompt, CarriesPrompt, item,
                   match item { case SystemPrompt(content) => [System(content)] case ToolDefinition(_) => [] });
      var tools := match item { case SystemPrompt(_) => [] case ToolDefinition(name) => [name] };
      ProjectsSnoc(front, ContextTools(front), IsTool, CarriesTool, item, tools);
      var others := if tools == [] || tools[0] == CALL_SKILL_TOOL_NAME then [] else tools;
      ProjectsSnoc(front, SkillTools(front), IsSkillTool, CarriesTool, item, others);
      WithoutSkillToolSnoc(ContextTools(front), tools);
      hide WithoutSkillTool;
    }
  }

  lemma {:induction false} WithoutSkillToolSnoc(tools: seq<string>, more: seq<string>)
    requires |more| <= 1
    ensures WithoutSkillTool(tools + more) ==
            WithoutSkillTool(tools) + if more == [] || more[0] == CALL_SKILL_TOOL_NAME then [] else more
  {
    if more == [] {
      assert tools + more == tools;
    } else {
      assert (tools + more)[..|tools|] == tools;
    }
  }

  // Prompts

  /** The system prompts, then one message for every visible step with content, in order. */
  ghost predicate ShowsChat(messages: seq<Message>, context: seq<ContextItem>, steps: seq<Step>) {
    exists system, chat ::
      && messages == system + chat
      && Projects(context, system, IsPrompt, CarriesPrompt)
      && Projects(steps, chat, IsShown, Carries)
  }

  /** What a main request holds: the context, the visible steps and every tool. */
  ghost predicate ShowsSession(request: Request, context: seq<ContextItem>, steps: seq<Step>) {
    ShowsChat(request.messages, context, steps) && Projects(context, request.tools, IsTool, CarriesTool)
  }

  lemma {:induction false} ContextAndChatShow(context: seq<ContextItem>, steps: seq<Step>)
    ensures ShowsChat(ContextMessages(context) + Chat(steps), context, steps)
  {
    ContextIsCarried(context);
    ChatIsCarried(steps);
  }

  lemma {:induction false} MainRequestShowsSession(context: seq<ContextItem>, steps: seq<Step>)
    ensures ShowsSession(MainRequest(context, steps), context, steps)
  {
    ContextAndChatShow(context, steps);
    ContextIsCarried(context);
  }

  // Skill prompts

  /** The instructions extend the first system message, or become one in front. */
  ghost predicate Injected(messages: seq<Message>, instructions: string, result: seq<Message>) {
    || (&& (forall i :: 0 <= i < |messages| ==> !messages[i].System?)
        && result == [System(instructions)] + messages)
    || exists i :: InjectedAt(messages, instructions, result, i)
  }

  predicate InjectedAt(messages: seq<Message>, instructions: string, result: seq<Message>, i: int) {
    && 0 <= i < |messages| && messages[i].System?
    && (forall k :: 0 <= k < i ==> !messages[k].System?)
    && result == messages[i := System(messages[i].content + "\n\n" + instructions)]
  }

  lemma {:induction false} FirstSystem(messages: seq<Message>) returns (i: nat)
    requires exists m :: m in messages && m.System?
    ensures i < |messages| && messages[i].System? && forall k :: 0 <= k < i ==> !messages[k].System?
  {
    if messages[0].System? {
      return 0;
    }
    assert messages == [messages[0]] + messages[1..];
    var k := FirstSystem(messages[1..]);
    i := k + 1;
  }

  lemma {:induction false} InstructionsAreInjected(messages: seq<Message>, instructions: string)
    ensures Injected(messages, instructions, InjectInstructions(messages, instructions))
  {
    if exists m :: m in messages && m.System? {
      var i := FirstSystem(messages);
      InjectSpec(messages, i, instructions);
      assert InjectedAt(messages, instructions, InjectInstructions(messages, instructions), i);
    } else {
      assert forall i :: 0 <= i < |messages| ==> messages[i] in messages;
    }
  }

  /** The steps of the transcript of an invocation. */
  function TranscriptOf(id: string): Step -> bool {
    (step: Step) => (step.payload.SkillAssistantResponse? || step.payload.SkillToolResult?) && step.payload.invocationId == id
  }

  ghost predicate CarriesEntry(step: Step, message: Message) {
    match step.payload
    case SkillAssistantResponse(_, messageId, items) => CarriesResponse(messageId, items, message)
    case SkillToolResult(_, callId, providerId, result) => message == ToolOutput(callId, providerId, result)
    case _ => false
  }

  lemma {:induction false} EntryIsCarried(step: Step, id: string)
    requires TranscriptEntry(step, id).Ok?
    ensures var entry := TranscriptEntry(step, id).value;
            if TranscriptOf(id)(step) then |entry| == 1 && CarriesEntry(step, entry[0]) else entry == []
  {
    hide ResponseMessage;
    hide CarriesResponse;
    if step.payload.SkillAssistantResponse? {
      ResponseIsCarried(step.payload.messageId, step.payload.items);
    }
  }

  lemma {:induction false} TranscriptIsCarried(steps: seq<Step>, id: string)
    requires Transcript(steps, id).Ok?
    ensures Projects(steps, Transcript(steps, id).value, TranscriptOf(id), CarriesEntry)
  {
    hide Projects;
    hide TranscriptOf;
    hide CarriesEntry;
    hide TranscriptEntry;
    if steps == [] {
      ProjectsNone(TranscriptOf(id), CarriesEntry);
    } else {
      var n := |steps| - 1;
      TranscriptIsCarried(steps[..n], id);
      EntryIsCarried(steps[n], id);
      ProjectsSnoc(steps[..n], Transcript(steps[..n], id).value, TranscriptOf(id), CarriesEntry, steps[n],
                   TranscriptEntry(steps[n], id).value);
      assert steps == steps[..n] + [steps[n]];
    }
  }

  /** Step `i` is the first of the run that holds the call. */
  predicate FirstHolds(steps: seq<Step>, run: nat, id: string, i: nat) {
    && i < |steps| && steps[i].run == run && ContainsToolCall(steps[i], id)
    && forall k :: 0 <= k < i ==> !(steps[k].run == run && ContainsToolCall(steps[k], id))
  }

  /**
   * What a skill is told: what the main loop was told before the response that called it, its
   * instructions, its task, and then its own responses and tool results, in order.
   */
  ghost predicate ShowsSkill(messages: seq<Message>, context: seq<ContextItem>, prior: seq<Step>, log: seq<Step>, run: nat,
                             invocation: SkillInvocation, skill: Skill)
  {
    exists i: nat, parent, injected, transcript ::
      && FirstHolds(prior + log, run, invocation.id, i)
      && ShowsChat(parent, context, (prior + log)[..i])
      && Injected(parent, skill.instructions, injected)
      && Projects(log, transcript, TranscriptOf(invocation.id), CarriesEntry)
      && messages == injected + [User(invocation.task)] + transcript
  }

  lemma {:induction false} SkillMessagesShowSkill(context: seq<ContextItem>, prior: seq<Step>, log: seq<Step>, run: nat,
                                                  invocation: SkillInvocation, skill: Skill)
    requires SkillMessages(context, prior, log, run, invocation, skill).Ok?
    ensures ShowsSkill(SkillMessages(context, prior, log, run, invocation, skill).value, context, prior, log, run, invocation, skill)
  {
    hide Projects;
    hide Chat;
    hide ContextMessages;
    hide InjectInstructions;
    hide Injected;
    hide ShowsChat;
    hide Transcript;
    var all := prior + log;
    var i := FirstCallIndex(all, run, invocation.id);
    ContextAndChatShow(context, all[..i]);
    var parent := ContextMessages(context) + Chat(all[..i]);
    InstructionsAreInjected(parent, skill.instructions);
    TranscriptIsCarried(log, invocation.id);
    assert FirstHolds(all, run, invocation.id, i);
  }

  // Replies

  predicate IsTextChoice(choice: Choice) {
    choice.TextChoice?
  }

  predicate RecordsText(choice: Choice, text: string) {
    choice.TextChoice? && text == choice.text
  }

  predicate IsCallChoice(choice: Choice) {
    choice.CallChoice?
  }

  predicate RecordsCall(choice: Choice, call: ToolCall) {
    choice.CallChoice? && call == choice.call
  }

  /** Texts, calls and reasoning that displays something are recorded. */
  predicate IsRecorded(choice: Choice) {
    choice.TextChoice? || choice.CallChoice? || (choice.ReasoningChoice? && choice.display != "")
  }

  predicate Records(choice: Choice, item: ResponseItem) {
    match choice
    case TextChoice(text) => item == TextItem(text)
    case CallChoice(call) => item == CallItem(call)
    case ReasoningChoice(display) => item == ReasoningItem(display)
    case ImageChoice => false
  }

  /** The items, the calls and the text of a reply, each in the order of the reply. */
  ghost predicate TakesTurn(choices: seq<Choice>, items: seq<ResponseItem>, calls: seq<ToolCall>, answer: string) {
    && Projects(choices, items, IsRecorded, Records)
    && Projects(choices, calls, IsCallChoice, RecordsCall)
    && exists texts :: Projects(choices, texts, IsTextChoice, RecordsText) && answer == Concat(texts)
  }

  /** What one element of a reply adds. */
  lemma {:induction false} ChoiceIsTaken(choice: Choice)
    ensures |ItemOf(choice)| <= 1
    ensures if IsRecorded(choice) then ItemOf(choice) != [] && Records(choice, ItemOf(choice)[0]) else ItemOf(choice) == []
    ensures IsCallChoice(choice) <==> ItemOf(choice) != [] && ItemOf(choice)[0].CallItem?
    ensures IsCallChoice(choice) ==> RecordsCall(choice, ItemOf(choice)[0].call)
    ensures IsTextChoice(choice) <==> ItemOf(choice) != [] && ItemOf(choice)[0].TextItem?
    ensures IsTextChoice(choice) ==> RecordsText(choice, ItemOf(choice)[0].content)
  {
  }

  lemma {:induction false} ReplyIsTaken(choices: seq<Choice>)
    ensures TakesTurn(choices, ItemsOf(choices), Calls(ItemsOf(choices)), TextOf(ItemsOf(choices)))
  {
    ItemsAreTaken(choices);
    CallsAreTaken(choices);
    var texts := TextsAreTaken(choices);
    hide Projects;
    hide Calls;
    hide TextOf;
    hide ItemsOf;
  }

  lemma {:induction false} ItemsAreTaken(choices: seq<Choice>)
    ensures Projects(choices, ItemsOf(choices), IsRecorded, Records)
  {
    hide Projects;
    hide ItemOf;
    hide IsRecorded;
    hide Records;
    if choices == [] {
      ProjectsNone(IsRecorded, Records);
    } else {
      var n := |choices| - 1;
      ItemsAreTaken(choices[..n]);
      ChoiceIsTaken(choices[n]);
      ProjectsSnoc(choices[..n], ItemsOf(choices[..n]), IsRecorded, Records, choices[n], ItemOf(choices[n]));
      assert choices == choices[..n] + [choices[n]];
    }
  }

  lemma {:induction false} CallsAreTaken(choices: seq<Choice>)
    ensures Projects(choices, Calls(ItemsOf(choices)), IsCallChoice, RecordsCall)
  {
    hide Projects;
    hide ItemOf;
    hide IsCallChoice;
    hide RecordsCall;
    if choices == [] {
      ProjectsNone(IsCallChoice, RecordsCall);
    } else {
      var n := |choices| - 1;
      var front, more := choices[..n], ItemOf(choices[n]);
      CallsAreTaken(front);
      ChoiceIsTaken(choices[n]);
      MoreItems(ItemsOf(front), more);
      hide Calls;
      ProjectsSnoc(front, Calls(ItemsOf(front)), IsCallChoice, RecordsCall, choices[n],
                   if IsCallChoice(choices[n]) then [more[0].call] else []);
      assert choices == front + [choices[n]];
    }
  }

  lemma {:induction false} TextsAreTaken(choices: seq<Choice>) returns (texts: seq<string>)
    ensures Projects(choices, texts, IsTextChoice, RecordsText) && TextOf(ItemsOf(choices)) == Concat(texts)
  {
    hide Projects;
    hide ItemOf;
    hide IsTextChoice;
    hide RecordsText;
    if choices == [] {
      ProjectsNone(IsTextChoice, RecordsText);
      texts := [];
    } else {
      var n := |choices| - 1;
      var front, more := choices[..n], ItemOf(choices[n]);
      var earlier := TextsAreTaken(front);
      ChoiceIsTaken(choices[n]);
      MoreItems(ItemsOf(front), more);
      var text := if IsTextChoice(choices[n]) then [more[0].content] else [];
      hide TextOf;
      ProjectsSnoc(front, earlier, IsTextChoice, RecordsText, choices[n], text);
      ConcatMore(earlier, text);
      hide Concat;
      assert choices == front + [choices[n]];
      texts := earlier + text;
    }
  }

  lemma {:induction false} MoreItems(items: seq<ResponseItem>, more: seq<ResponseItem>)
    requires |more| <= 1
    ensures Calls(items + more) == Calls(items) + (if more != [] && more[0].CallItem? then [more[0].call] else [])
    ensures TextOf(items + more) == TextOf(items) + (if more != [] && more[0].TextItem? then more[0].content else "")
  {
    if more == [] {
      assert items + more == items;
    } else {
      ItemsSnoc(items, more[0]);
      assert more == [more[0]];
    }
  }

  lemma {:induction false} ConcatMore(texts: seq<string>, more: seq<string>)
    requires |more| <= 1
    ensures Concat(texts + more) == Concat(texts) + (if more == [] then "" else more[0])
  {
    if more == [] {
      assert texts + more == texts;
    } else {
      ConcatSnoc(texts, more[0]);
      assert more == [more[0]];
    }
  }

  // Questions

  /** No step of the log is the result of this call. */
  predicate HasNoResult(steps: seq<Step>, id: string) {
    forall k :: 0 <= k < |steps| ==> !(steps[k].payload.ToolResult? && steps[k].payload.id == id)
  }

  predicate HasNoSkillResult(steps: seq<Step>, invocationId: string, id: string) {
    forall k :: 0 <= k < |steps| ==>
      !(steps[k].payload.SkillToolResult? && steps[k].payload.invocationId == invocationId && steps[k].payload.id == id)
  }

  /** Call `j` of step `i` is a question without an answer anywhere in the log. */
  predicate AsksAt(steps: seq<Step>, i: int, j: int, question: Pending) {
    && 0 <= i < |steps|
    && match steps[i].payload
       case AssistantResponse(_, items) =>
         && 0 <= j < |Calls(items)|
         && question == MainQuestion(Calls(items)[j])
         && IsHumanInput(question.call) && HasNoResult(steps, question.call.id)
       case SkillAssistantResponse(invocationId, _, items) =>
         && 0 <= j < |Calls(items)|
         && question.SkillQuestion? && question.call == Calls(items)[j]
         && InvocationStarted(steps, invocationId) == Some(question.invocation)
         && IsHumanInput(question.call) && HasNoSkillResult(steps, invocationId, question.call.id)
       case _ => false
  }

  /** No later call of the log, of its step or of a later one, is an open question. */
  ghost predicate IsLatestAt(steps: seq<Step>, i: int, j: int) {
    forall k, l, other :: AsksAt(steps, k, l, other) ==> k < i || (k == i && l <= j)
  }

  /** The latest open question of the log, if it has one. */
  ghost predicate IsLatestQuestion(steps: seq<Step>, pending: Option<Pending>) {
    match pending
    case None => forall i, j, question :: !AsksAt(steps, i, j, question)
    case Some(question) => exists i, j :: AsksAt(steps, i, j, question) && IsLatestAt(steps, i, j)
  }

  lemma {:induction false} LastUnresolved(calls: seq<ToolCall>, resolved: set<string>) returns (j: int)
    ensures match UnresolvedHumanInput(calls, resolved)
            case None => j == -1 && forall l :: 0 <= l < |calls| ==> !IsHumanInput(calls[l]) || calls[l].id in resolved
            case Some(call) =>
              && 0 <= j < |calls| && calls[j] == call && IsHumanInput(call) && call.id !in resolved
              && forall l :: j < l < |calls| ==> !IsHumanInput(calls[l]) || calls[l].id in resolved
  {
    if calls == [] {
      return -1;
    }
    j := |calls| - 1;
    if !(IsHumanInput(calls[j]) && calls[j].id !in resolved) {
      j := LastUnresolved(calls[..j], resolved);
    }
  }

  lemma {:induction false} ResolvedMeansAnswered(steps: seq<Step>, invocationId: string, id: string)
    ensures id in ResolvedMain(steps) <==> !HasNoResult(steps, id)
    ensures (invocationId, id) in ResolvedSkill(steps) <==> !HasNoSkillResult(steps, invocationId, id)
  {
    assert forall k :: 0 <= k < |steps| ==> steps[k] in steps;
  }

  /** What one step asks. */
  lemma {:induction false} StepQuestionMeaning(steps: seq<Step>, i: nat) returns (j: int)
    requires i < |steps|
    ensures match StepQuestion(steps, steps[i])
            case None => forall l, other :: !AsksAt(steps, i, l, other)
            case Some(question) => AsksAt(steps, i, j, question) && forall l, other :: AsksAt(steps, i, l, other) ==> l <= j
  {
    j := -1;
    match steps[i].payload {
      case AssistantResponse(_, items) =>
        j := LastUnresolved(Calls(items), ResolvedMain(steps));
        forall l | 0 <= l < |Calls(items)|
          ensures Calls(items)[l].id in ResolvedMain(steps) <==> !HasNoResult(steps, Calls(items)[l].id)
        {
          ResolvedMeansAnswered(steps, "", Calls(items)[l].id);
        }
      case SkillAssistantResponse(invocationId, _, items) =>
        var resolved := set r | r in ResolvedSkill(steps) && r.0 == invocationId :: r.1;
        j := LastUnresolved(Calls(items), resolved);
        forall l | 0 <= l < |Calls(items)|
          ensures Calls(items)[l].id in resolved <==> !HasNoSkillResult(steps, invocationId, Calls(items)[l].id)
        {
          ResolvedMeansAnswered(steps, invocationId, Calls(items)[l].id);
          assert Calls(items)[l].id in resolved <==> (invocationId, Calls(items)[l].id) in ResolvedSkill(steps);
        }
      case _ =>
    }
  }

  lemma {:induction false} QuestionSearch(steps: seq<Step>, n: nat) returns (i: int, j: int)
    requires n <= |steps|
    requires forall k, l, other :: AsksAt(steps, k, l, other) ==> 0 <= k < n
    ensures match LatestQuestion(steps, n)
            case None => forall k, l, other :: !AsksAt(steps, k, l, other)
            case Some(question) => AsksAt(steps, i, j, question) && IsLatestAt(steps, i, j)
  {
    hide AsksAt;
    hide StepQuestion;
    if n == 0 {
      i, j := -1, -1;
    } else {
      i := n - 1;
      j := StepQuestionMeaning(steps, n - 1);
      if StepQuestion(steps, steps[n - 1]).None? {
        i, j := QuestionSearch(steps, n - 1);
      }
    }
  }

  /** The backward search finds the latest open question, and nothing exactly when there is none. */
  lemma {:induction false} LatestQuestionMeaning(steps: seq<Step>)
    ensures IsLatestQuestion(steps, LatestQuestion(steps, |steps|))
  {
    var i, j := QuestionSearch(steps, |steps|);
    hide AsksAt;
  }
}
