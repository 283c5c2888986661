// Where the calls and the skill starts of a log come from.
module Provenance {
  import opened Prelude
  import opened RunModel
  import opened RunLog
  import opened RunSummary
  import opened RunInvariant

  /** The call recorded for the `k`-th requested skill: its task is the run's request. */
  function ExplicitCall(k: nat, name: string, request: string): ToolCall {
    ToolCall(ExplicitSkillInvocationId(k), None, CALL_SKILL_TOOL_NAME, SkillArguments(name, request))
  }

  predicate HoldsCall(step: Step, call: ToolCall) {
    step.payload.AssistantResponse? && call in Calls(step.payload.items)
  }

  /** Some assistant response of the log holds the call. */
  ghost predicate HasCall(steps: seq<Step>, call: ToolCall) {
    exists i :: 0 <= i < |steps| && HoldsCall(steps[i], call)
  }

  /** The call asks for this skill and this task. */
  predicate AsksFor(call: ToolCall, invocation: SkillInvocation) {
    && call.id == invocation.id
    && call.callId == invocation.callId
    && call.name == CALL_SKILL_TOOL_NAME
    && ParseSkillArguments(call.arguments) == Some((invocation.skillName, invocation.task))
  }

  /** The response is the call of the `k`-th requested skill and nothing else. */
  predicate IsRequestedCall(names: seq<string>, request: string, items: seq<ResponseItem>, k: nat) {
    k < |names| && items == [CallItem(ExplicitCall(k, names[k], request))]
  }

  predicate IsRequestedStep(names: seq<string>, request: string, step: Step, k: nat) {
    step.payload.AssistantResponse? && IsRequestedCall(names, request, step.payload.items, k)
  }

  /** The calls of a response are new; one with an explicit id is that of a requested skill, on its own. */
  ghost predicate ResponseSourced(before: seq<Step>, request: string, items: seq<ResponseItem>) {
    var calls := Calls(items);
    && DistinctIds(calls)
    && (forall c :: c in calls ==> c.id !in Summarize(before).recorded)
    && ((exists c :: c in calls && IsExplicitId(c.id)) ==> exists k: nat :: IsRequestedCall(Names(before), request, items, k))
  }

  /** A skill starts for a call recorded before, with that call's skill and task. */
  ghost predicate StepSourced(before: seq<Step>, request: string, step: Step) {
    match step.payload
    case AssistantResponse(_, items) => ResponseSourced(before, request, items)
    case SkillStarted(id, callId, skillName, task) =>
      exists call :: HasCall(before, call) && AsksFor(call, SkillInvocation(id, callId, skillName, task))
    case _ => true
  }

  /** Every step of the log is accounted for by the steps before it and the run's request. */
  ghost predicate Sourced(steps: seq<Step>, request: string) {
    forall i :: 0 <= i < |steps| ==> StepSourced(steps[..i], request, steps[i])
  }

  lemma {:induction false} SourcedSnoc(steps: seq<Step>, step: Step, request: string)
    requires Sourced(steps, request) && StepSourced(steps, request, step)
    ensures Sourced(steps + [step], request)
  {
    hide StepSourced;
    var all := steps + [step];
    forall i | 0 <= i < |all|
      ensures StepSourced(all[..i], request, all[i])
    {
      assert all[..i] == steps[..i];
      assert steps[..|steps|] == steps;
    }
  }

  lemma {:induction false} SourcedPrefix(steps: seq<Step>, n: nat, request: string)
    requires Sourced(steps, request) && n <= |steps|
    ensures Sourced(steps[..n], request)
  {
    hide StepSourced;
    var front := steps[..n];
    forall i | 0 <= i < n
      ensures StepSourced(front[..i], request, front[i])
    {
      assert front[..i] == steps[..i];
    }
  }

  /** A started invocation stays the one that is found. */
  lemma {:induction false} StartStays(steps: seq<Step>, more: seq<Step>, id: string)
    requires InvocationStarted(steps, id).Some?
    ensures InvocationStarted(steps + more, id) == InvocationStarted(steps, id)
    decreases |more|
  {
    if more == [] {
      assert steps + more == steps;
    } else {
      var front := more[..|more| - 1];
      StartStays(steps, front, id);
      assert (steps + more)[..|steps + more| - 1] == steps + front;
    }
  }

  lemma {:induction false} StartStaysIn(steps: seq<Step>, longer: seq<Step>, id: string)
    requires steps <= longer && InvocationStarted(steps, id).Some?
    ensures InvocationStarted(longer, id) == InvocationStarted(steps, id)
  {
    StartStays(steps, longer[|steps|..], id);
    assert steps + longer[|steps|..] == longer;
  }

  /** The first start of an invocation is found at once. */
  lemma {:induction false} StartIsFound(steps: seq<Step>, step: Step, invocation: SkillInvocation)
    requires InvocationStarted(steps, invocation.id).None?
    requires step.payload == SkillStarted(invocation.id, invocation.callId, invocation.skillName, invocation.task)
    ensures InvocationStarted(steps + [step], invocation.id) == Some(invocation)
  {
    assert (steps + [step])[..|steps|] == steps;
  }

  lemma {:induction false} NamesStay(steps: seq<Step>, more: seq<Step>)
    requires RequestedSkillNames(steps).Some?
    ensures RequestedSkillNames(steps + more) == RequestedSkillNames(steps)
    decreases |more|
  {
    if more == [] {
      assert steps + more == steps;
    } else {
      var front := more[..|more| - 1];
      NamesStay(steps, front);
      assert (steps + more)[..|steps + more| - 1] == steps + front;
    }
  }

  /** Every started invocation was asked for by a recorded call. */
  lemma {:induction false} StartHasCall(steps: seq<Step>, request: string, id: string) returns (call: ToolCall)
    requires Sourced(steps, request) && InvocationStarted(steps, id).Some?
    ensures HasCall(steps, call) && AsksFor(call, InvocationStarted(steps, id).value)
  {
    hide AsksFor;
    hide HoldsCall;
    var n := |steps| - 1;
    var front := steps[..n];
    if InvocationStarted(front, id).Some? {
      SourcedPrefix(steps, n, request);
      call := StartHasCall(front, request, id);
    } else {
      assert StepSourced(front, request, steps[n]);
      call :| HasCall(front, call) && AsksFor(call, InvocationStarted(steps, id).value);
    }
    var i :| 0 <= i < n && HoldsCall(front[i], call);
    assert HoldsCall(steps[i], call);
  }

  lemma {:induction false} HeldIsRecorded(steps: seq<Step>, i: nat, call: ToolCall)
    requires i < |steps| && HoldsCall(steps[i], call)
    ensures call.id in Summarize(steps).recorded
  {
    var n := |steps| - 1;
    if i < n {
      HeldIsRecorded(steps[..n], i, call);
    }
  }

  /** A call id is recorded by one step only. */
  lemma {:induction false} RecordedOnce(steps: seq<Step>, request: string, i: nat, a: ToolCall, j: nat, b: ToolCall)
    requires Sourced(steps, request) && i < |steps| && j < |steps|
    requires HoldsCall(steps[i], a) && HoldsCall(steps[j], b) && a.id == b.id
    ensures i == j && a == b
  {
    assert StepSourced(steps[..i], request, steps[i]) && StepSourced(steps[..j], request, steps[j]);
    hide Calls;
    hide Summarize;
    if i < j {
      HeldIsRecorded(steps[..j], i, a);
    } else if j < i {
      HeldIsRecorded(steps[..i], j, b);
    } else {
      var calls := Calls(steps[i].payload.items);
      var k :| 0 <= k < |calls| && calls[k] == a;
      var l :| 0 <= l < |calls| && calls[l] == b;
      assert !(k < l) && !(l < k);
    }
  }

  lemma {:induction false} ExplicitIdsAreExplicit(k: nat)
    ensures IsExplicitId(ExplicitSkillInvocationId(k))
  {
    assert EXPLICIT_PREFIX <= ExplicitSkillInvocationId(k);
  }

  /** A response that holds the `k`-th explicit id is the call of the `k`-th requested skill and nothing else. */
  lemma {:induction false} RequestedCallAt(steps: seq<Step>, request: string, i: nat, k: nat)
    requires Sourced(steps, request) && i < |steps| && ContainsToolCall(steps[i], ExplicitSkillInvocationId(k))
    ensures IsRequestedStep(Names(steps), request, steps[i], k)
  {
    var before, items := steps[..i], steps[i].payload.items;
    ExplicitIdsAreExplicit(k);
    assert StepSourced(before, request, steps[i]);
    hide IsExplicitId;
    hide ExplicitSkillInvocationId;
    hide Summarize;
    var m: nat :| IsRequestedCall(Names(before), request, items, m);
    SingleCall(ExplicitCall(m, Names(before)[m], request));
    ExplicitIdsInjective(m, k);
    NamesStay(before, steps[i..]);
    assert before + steps[i..] == steps;
  }
}
