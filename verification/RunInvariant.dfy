// The phases of a run and the facts its log keeps in each of them.
module RunInvariant {
  import opened Prelude
  import opened RunModel
  import opened RunLog
  import opened RunSummary

  function Names(steps: seq<Step>): seq<string> {
    match RequestedSkillNames(steps)
    case Some(names) => names
    case None => []
  }

  /** Holds of every log the run loop writes, in every phase. */
  ghost predicate LogOk(steps: seq<Step>) {
    var u := Summarize(steps);
    && u.mentioned <= u.taken
    && u.recorded <= u.taken
    && u.results <= u.mentioned
    && u.started <= u.mentioned
    && !u.repeated
    && u.open <= u.recorded
    && u.open !! u.results
    && (forall id :: CountResponses(steps, id) <= MAX_LOOP_ITERATIONS)
    && (forall id :: id !in u.mentioned ==> CountResponses(steps, id) == 0)
    && |u.explicitCalls| <= |Names(steps)|
    && u.explicitCalls == ExplicitIds(|u.explicitCalls|)
    && (forall id :: id in u.taken && IsExplicitId(id) ==> id in u.explicitCalls)
  }

  /** Between two responses: nothing is being executed. */
  ghost predicate Quiet(steps: seq<Step>) {
    LogOk(steps) && AtRest(Summarize(steps))
  }

  predicate AtRest(u: Summary) {
    (Settled(u) <==> !u.misplaced) && u.explicitCalls == u.explicitResults
  }

  /** The main loop may ask the model: every requested skill has its call and its result. */
  ghost predicate ReadyForModel(steps: seq<Step>) {
    Quiet(steps) && |Summarize(steps).explicitCalls| == |Names(steps)|
  }

  /** The calls `rest` of the latest response are still to be executed. */
  ghost predicate Executing(steps: seq<Step>, rest: seq<ToolCall>) {
    Serving(steps, rest) && (rest != [] ==> rest[0].id !in Summarize(steps).mentioned)
  }

  /** The same while the first of them is being served. */
  ghost predicate Serving(steps: seq<Step>, rest: seq<ToolCall>) {
    LogOk(steps) && CallsLeft(Summarize(steps), rest)
  }

  predicate CallsLeft(u: Summary, rest: seq<ToolCall>) {
    && DistinctIds(rest)
    && u.open == IdSet(rest)
    && (rest != [] ==> u.open - {rest[0].id} !! u.mentioned)
    && (u.lost <==> u.misplaced)
    && (rest != [] ==> IsLastCall(u, rest[|rest| - 1].id))
    && (|rest| > 1 ==> forall c :: c in rest ==> !IsExplicitId(c.id))
    && u.explicitCalls == u.explicitResults + ExplicitOnly(Ids(rest))
  }

  /** Skill invocation `id` runs on behalf of an open call. */
  ghost predicate InSkill(steps: seq<Step>, id: string) {
    LogOk(steps) && ServesCall(Summarize(steps), id)
  }

  predicate ServesCall(u: Summary, id: string) {
    && id in u.started
    && id in u.open
    && (IsLastCall(u, id) <==> u.open == {id})
    && u.explicitCalls == u.explicitResults + ExplicitOnly([id])
  }

  /** The pauses so far are judged as if `id` were already answered. */
  predicate Reconciled(u: Summary, id: string) {
    u.misplaced <==> u.lost || u.open != {id}
  }

  /** The run waits for the answer to a main-loop question. */
  ghost predicate PausedMain(steps: seq<Step>) {
    var u := Summarize(steps);
    && steps != []
    && steps[|steps| - 1].payload.AssistantResponse?
    && LogOk(steps)
    && var calls := Calls(steps[|steps| - 1].payload.items);
    && HasHumanInput(calls)
    && DistinctIds(calls)
    && (forall c :: c in calls ==> !IsExplicitId(c.id))
    && u.open == IdSet(calls)
    && (u.misplaced <==> u.lost || |calls| != 1)
    && u.explicitCalls == u.explicitResults
    && |u.explicitCalls| == |Names(steps)|
  }

  /** The run waits for the answer to a question asked by skill invocation `id`. */
  ghost predicate PausedSkill(steps: seq<Step>, id: string) {
    var u := Summarize(steps);
    && steps != []
    && steps[|steps| - 1].payload.SkillAssistantResponse?
    && steps[|steps| - 1].payload.invocationId == id
    && InSkill(steps, id)
    && Reconciled(u, id)
    && PausesSkill(steps[|steps| - 1].payload.items)
    && Calls(steps[|steps| - 1].payload.items)[0].id !in u.mentioned
    && Calls(steps[|steps| - 1].payload.items)[0].id in u.taken
    && Transcript(steps, id).Ok?
  }

  lemma {:induction false} OpenIsTaken(steps: seq<Step>)
    requires LogOk(steps)
    ensures Summarize(steps).open <= Summarize(steps).taken
  {
  }

  // Counting

  lemma {:induction false} CountSnoc(steps: seq<Step>, step: Step, id: string)
    ensures CountResponses(steps + [step], id) == CountResponses(steps, id) +
            if step.payload.SkillAssistantResponse? && step.payload.invocationId == id then 1 else 0
  {
    assert (steps + [step])[..|steps|] == steps;
  }

  lemma {:induction false} NamesSnoc(steps: seq<Step>, step: Step)
    requires RequestedSkillNames(steps).Some? || !step.payload.SkillsRequested?
    ensures RequestedSkillNames(steps + [step]) == RequestedSkillNames(steps)
    ensures Names(steps + [step]) == Names(steps)
  {
    assert (steps + [step])[..|steps|] == steps;
  }

  /** A step that records neither calls, results nor responses keeps the log in order. */
  lemma {:induction false} NeutralStep(steps: seq<Step>, step: Step)
    requires LogOk(steps)
    requires step.payload.Error? || step.payload.AssistantOutputCheckpoint? || step.payload.SkillStarted? || step.payload.SkillToolResult?
    requires step.payload.SkillStarted? ==> step.payload.invocationId in Summarize(steps).taken
    requires step.payload.SkillToolResult? ==> step.payload.id in Summarize(steps).taken
    ensures LogOk(steps + [step])
  {
    SummarizeSnoc(steps, step);
    NamesSnoc(steps, step);
    forall id {
      CountSnoc(steps, step, id);
    }
  }

  lemma {:induction false} HumanInputHasIds(calls: seq<ToolCall>)
    ensures calls == [] <==> IdSet(calls) == {}
    ensures |calls| == 1 ==> IdSet(calls) == {calls[0].id}
  {
    if calls != [] {
      assert calls[0].id in IdSet(calls);
    }
  }

  lemma {:induction false} SingleOpen(calls: seq<ToolCall>)
    requires DistinctIds(calls) && calls != []
    ensures IdSet(calls) == {calls[0].id} <==> |calls| == 1
  {
    HumanInputHasIds(calls);
    if |calls| > 1 {
      assert calls[1].id in IdSet(calls);
    }
  }

  lemma {:induction false} NoExplicitIds(ids: seq<string>)
    requires forall id :: id in ids ==> !IsExplicitId(id)
    ensures ExplicitOnly(ids) == []
  {
    if ids != [] {
      NoExplicitIds(ids[1..]);
    }
  }

  /** Ids of a response from the model are new and not explicit. */
  ghost predicate FreshCalls(steps: seq<Step>, calls: seq<ToolCall>) {
    DistinctIds(calls) && forall c :: c in calls ==> c.id !in Summarize(steps).taken && !IsExplicitId(c.id)
  }

  lemma {:induction false} ResponseKeepsLog(steps: seq<Step>, step: Step)
    requires LogOk(steps)
    requires step.payload.AssistantResponse?
    requires forall c :: c in Calls(step.payload.items) ==> c.id !in Summarize(steps).taken
    requires var v := AbsorbResponse(Summarize(steps), Calls(step.payload.items));
             && v.explicitCalls == ExplicitIds(|v.explicitCalls|)
             && |v.explicitCalls| <= |Names(steps)|
             && (forall c :: c in Calls(step.payload.items) && IsExplicitId(c.id) ==> c.id in v.explicitCalls)
    ensures LogOk(steps + [step]) && Names(steps + [step]) == Names(steps)
  {
    SummarizeSnoc(steps, step);
    NamesSnoc(steps, step);
    forall id {
      CountSnoc(steps, step, id);
    }
  }

  /** Recording a model response starts its calls, or pauses the run on `human_input`. */
  lemma {:induction false} ResponseRecorded(steps: seq<Step>, step: Step)
    requires ReadyForModel(steps)
    requires step.payload.AssistantResponse?
    requires FreshCalls(steps, Calls(step.payload.items))
    ensures var calls := Calls(step.payload.items);
            var after := steps + [step];
            if HasHumanInput(calls) then PausedMain(after)
            else Executing(after, calls) && Names(after) == Names(steps) &&
                 |Summarize(after).explicitCalls| == |Names(after)|
  {
    var calls := Calls(step.payload.items);
    var u := Summarize(steps);
    NoExplicitIds(Ids(calls));
    assert u.explicitCalls + [] == u.explicitCalls;
    assert u.explicitResults + [] == u.explicitResults;
    SummarizeSnoc(steps, step);
    ResponseKeepsLog(steps, step);
  }

  lemma {:induction false} ExplicitIdIsNew(steps: seq<Step>, index: nat)
    requires LogOk(steps)
    requires index == |Summarize(steps).explicitCalls|
    ensures IsExplicitId(ExplicitSkillInvocationId(index))
    ensures ExplicitSkillInvocationId(index) !in Summarize(steps).taken
  {
    var id := ExplicitSkillInvocationId(index);
    assert EXPLICIT_PREFIX <= id;
    if id in Summarize(steps).taken {
      var k :| 0 <= k < index && Summarize(steps).explicitCalls[k] == id;
      ExplicitIdsInjective(k, index);
    }
  }

  /** Recording the call of the next explicitly requested skill. */
  lemma {:induction false} ExplicitCallRecorded(steps: seq<Step>, step: Step, call: ToolCall, index: nat)
    requires Quiet(steps)
    requires index == |Summarize(steps).explicitCalls| < |Names(steps)|
    requires step.payload.AssistantResponse? && step.payload.items == [CallItem(call)]
    requires call.id == ExplicitSkillInvocationId(index) && !IsHumanInput(call)
    ensures Calls(step.payload.items) == [call]
    ensures LogOk(steps + [step])
    ensures Executing(steps + [step], [call]) && Names(steps + [step]) == Names(steps)
    ensures |Summarize(steps + [step]).explicitCalls| == index + 1
    ensures Summarize(steps + [step]).startCount == Summarize(steps).startCount
  {
    var u := Summarize(steps);
    SingleCall(call);
    ExplicitIdIsNew(steps, index);
    assert Ids([call]) == [call.id];
    ExplicitSingle(call.id);
    assert u.explicitCalls + [call.id] == ExplicitIds(index + 1);
    SummarizeSnoc(steps, step);
    hide RequestedSkillNames;
    hide CountResponses;
    hide Summarize;
    hide ExplicitSkillInvocationId;
    hide IsExplicitId;
    hide ExplicitOnly;
    hide Calls;
    ResponseKeepsLog(steps, step);
    hide LogOk;
    ExplicitCallLeft(u, call);
  }

  /** The only call of an explicit response is left to execute. */
  lemma {:induction false} ExplicitCallLeft(u: Summary, call: ToolCall)
    requires AtRest(u) && IsExplicitId(call.id) && !IsHumanInput(call)
    ensures CallsLeft(AbsorbResponse(u, [call]), [call])
  {
    ExplicitSingle(call.id);
    assert Ids([call]) == [call.id];
    hide IsExplicitId;
    hide ExplicitOnly;
  }

  lemma {:induction false} SingleCall(call: ToolCall)
    ensures Calls([CallItem(call)]) == [call]
  {
    assert [CallItem(call)][..0] == [];
  }

  lemma {:induction false} FirstOfRest(rest: seq<ToolCall>)
    requires rest != []
    requires DistinctIds(rest)
    ensures DistinctIds(rest[1..])
    ensures rest[0].id in IdSet(rest)
    ensures IdSet(rest[1..]) == IdSet(rest) - {rest[0].id}
    ensures Ids(rest)[1..] == Ids(rest[1..])
    ensures ExplicitOnly(Ids(rest)) == ExplicitOnly([rest[0].id]) + ExplicitOnly(Ids(rest[1..]))
    ensures rest[1..] != [] ==> rest[1..][0].id in IdSet(rest[1..])
  {
    hide IsExplicitId;
    var id := rest[0].id;
    ExplicitOnlyFirst(id, Ids(rest[1..]));
    assert Ids(rest) == [id] + Ids(rest[1..]);
    hide ExplicitOnly;
    forall c | c in rest
      ensures c.id in IdSet(rest[1..]) || c.id == id
    {
      var k :| 0 <= k < |rest| && rest[k] == c;
      if k > 0 {
        assert rest[1..][k - 1] == c;
      }
    }
  }

  lemma {:induction false} ExplicitOnlyFirst(id: string, ids: seq<string>)
    ensures ExplicitOnly([id] + ids) == ExplicitOnly([id]) + ExplicitOnly(ids)
  {
    hide IsExplicitId;
    assert [id][1..] == [] && ([id] + ids)[1..] == ids;
  }

  lemma {:induction false} ResultKeepsLog(steps: seq<Step>, step: Step)
    requires LogOk(steps)
    requires step.payload.ToolResult?
    requires step.payload.id in Summarize(steps).open
    ensures LogOk(steps + [step]) && Names(steps + [step]) == Names(steps)
  {
    SummarizeSnoc(steps, step);
    NamesSnoc(steps, step);
    forall id {
      CountSnoc(steps, step, id);
    }
  }

  lemma {:induction false} Associate<T>(a: seq<T>, b: seq<T>, c: seq<T>)
    ensures a + (b + c) == a + b + c
    ensures a + [] == a
  {
  }

  lemma {:induction false} ResultPops(u: Summary, rest: seq<ToolCall>)
    requires rest != [] && CallsLeft(u, rest)
    ensures CallsLeft(AbsorbResult(u, rest[0].id), rest[1..])
    ensures rest[1..] != [] ==> rest[1..][0].id !in AbsorbResult(u, rest[0].id).mentioned
    ensures rest[1..] == [] ==> AtRest(AbsorbResult(u, rest[0].id))
  {
    assert ExplicitOnly(Ids([])) == [];
    hide IsExplicitId;
    hide ExplicitOnly;
    hide Ids;
    hide IsHumanInput;
    var id, more := rest[0].id, rest[1..];
    FirstOfRest(rest);
    ExplicitSingle(id);
    Associate(u.explicitResults, ExplicitOnly([id]), ExplicitOnly(Ids(more)));
    HumanInputHasIds(more);
    Associate(AbsorbResult(u, id).explicitResults, [], []);
  }

  /** The result of the first open call leaves the remaining calls to execute. */
  lemma {:induction false} ResultRecorded(steps: seq<Step>, rest: seq<ToolCall>, step: Step)
    requires rest != []
    requires Serving(steps, rest)
    requires IsResultOf(step, rest[0].id)
    ensures Executing(steps + [step], rest[1..])
    ensures rest[1..] == [] ==> Quiet(steps + [step])
    ensures Names(steps + [step]) == Names(steps)
    ensures Summarize(steps + [step]).explicitCalls == Summarize(steps).explicitCalls
    ensures Summarize(steps + [step]).startCount == Summarize(steps).startCount
  {
    FirstOfRest(rest);
    ResultPops(Summarize(steps), rest);
    SummarizeSnoc(steps, step);
    ResultKeepsLog(steps, step);
  }

  lemma {:induction false} ExplicitSingle(id: string)
    ensures ExplicitOnly([id]) == if IsExplicitId(id) then [id] else []
  {
    assert [id][1..] == [];
  }

  // Skill subflows

  /** The digest differs only in which ids are taken and mentioned. */
  predicate SameLedger(u: Summary, v: Summary) {
    v == u.(taken := v.taken, mentioned := v.mentioned)
  }

  /** Both ways a subflow can be entered: from the executing loop, or after an answer. */
  predicate Balanced(u: Summary, id: string) {
    (u.lost <==> u.misplaced) || (u.misplaced <==> u.lost || u.open != {id})
  }

  function AbsorbStart(u: Summary, id: string): Summary {
    u.(mentioned := u.mentioned + {id}, started := u.started + {id}, startCount := u.startCount + 1)
  }

  lemma {:induction false} StartServes(u: Summary, rest: seq<ToolCall>)
    requires rest != [] && CallsLeft(u, rest)
    ensures ServesCall(AbsorbStart(u, rest[0].id), rest[0].id)
  {
    var id := rest[0].id;
    FirstOfRest(rest);
    SingleOpen(rest);
    if |rest| > 1 {
      assert rest[0].id != rest[|rest| - 1].id;
    }
    NoExplicitIds(Ids(rest[1..]));
    assert ExplicitOnly([id]) + [] == ExplicitOnly([id]);
  }

  lemma {:induction false} SkillStartRecorded(steps: seq<Step>, rest: seq<ToolCall>, step: Step)
    requires rest != [] && Executing(steps, rest)
    requires step.payload.SkillStarted? && step.payload.invocationId == rest[0].id
    ensures InSkill(steps + [step], rest[0].id)
    ensures Balanced(Summarize(steps + [step]), rest[0].id)
    ensures Summarize(steps + [step]) == AbsorbStart(Summarize(steps), rest[0].id)
    ensures CountResponses(steps + [step], rest[0].id) == 0
    ensures Names(steps + [step]) == Names(steps)
  {
    var id := rest[0].id;
    assert id in IdSet(rest);
    StartServes(Summarize(steps), rest);
    SummarizeSnoc(steps, step);
    CountSnoc(steps, step, id);
    NamesSnoc(steps, step);
    NeutralStep(steps, step);
  }

  lemma {:induction false} SkillResponseKeepsLog(steps: seq<Step>, step: Step)
    requires LogOk(steps)
    requires step.payload.SkillAssistantResponse?
    requires step.payload.invocationId in Summarize(steps).taken
    requires FreshCalls(steps, Calls(step.payload.items))
    requires CountResponses(steps, step.payload.invocationId) < MAX_LOOP_ITERATIONS
    ensures LogOk(steps + [step]) && Names(steps + [step]) == Names(steps)
    ensures CountResponses(steps + [step], step.payload.invocationId) == CountResponses(steps, step.payload.invocationId) + 1
  {
    SummarizeSnoc(steps, step);
    NamesSnoc(steps, step);
    forall id {
      CountSnoc(steps, step, id);
    }
  }

  /** What a skill response does to the digest: nothing but a pause is visible to the parent. */
  predicate SkillResponseEffect(u: Summary, v: Summary, items: seq<ResponseItem>, id: string) {
    && (!PausesSkill(items) ==> SameLedger(u, v))
    && (PausesSkill(items) && Balanced(u, id) ==> Reconciled(v, id))
    && v.startCount == u.startCount
    && v.explicitCalls == u.explicitCalls
    && v.taken == u.taken + IdSet(Calls(items))
    && v.mentioned == u.mentioned + {id}
    && (forall c :: c in Calls(items) ==> c.id !in u.taken)
  }

  /** Everything mentioned since then is `id` itself or an id that was new. */
  predicate MentionsOnlyNew(u: Summary, v: Summary, id: string) {
    u.taken <= v.taken && forall x :: x in v.mentioned ==> x in u.mentioned || x == id || x !in u.taken
  }

  lemma {:induction false} SkillResponseRecorded(steps: seq<Step>, step: Step, id: string)
    requires InSkill(steps, id)
    requires step.payload.SkillAssistantResponse? && step.payload.invocationId == id
    requires FreshCalls(steps, Calls(step.payload.items))
    requires CountResponses(steps, id) < MAX_LOOP_ITERATIONS
    ensures InSkill(steps + [step], id) && Names(steps + [step]) == Names(steps)
    ensures CountResponses(steps + [step], id) == CountResponses(steps, id) + 1
    ensures forall c :: c in Calls(step.payload.items) ==>
              c.id in Summarize(steps + [step]).taken && c.id !in Summarize(steps + [step]).mentioned
    ensures SkillResponseEffect(Summarize(steps), Summarize(steps + [step]), step.payload.items, id)
  {
    SummarizeSnoc(steps, step);
    SkillResponseKeepsLog(steps, step);
  }

  lemma {:induction false} SkillToolRecorded(steps: seq<Step>, step: Step, id: string)
    requires InSkill(steps, id)
    requires step.payload.SkillToolResult? && step.payload.invocationId == id
    requires step.payload.id in Summarize(steps).taken
    ensures InSkill(steps + [step], id) && Names(steps + [step]) == Names(steps)
    ensures CountResponses(steps + [step], id) == CountResponses(steps, id)
    ensures SameLedger(Summarize(steps), Summarize(steps + [step]))
    ensures Summarize(steps + [step]).mentioned == Summarize(steps).mentioned + {step.payload.id}
    ensures Summarize(steps + [step]).taken == Summarize(steps).taken
  {
    SummarizeSnoc(steps, step);
    CountSnoc(steps, step, id);
    NamesSnoc(steps, step);
    NeutralStep(steps, step);
  }

  // Answers

  /** The result of a resumed skill closes its response. */
  lemma {:induction false} ResumedSkillResultRecorded(steps: seq<Step>, step: Step, id: string)
    requires InSkill(steps, id)
    requires Reconciled(Summarize(steps), id)
    requires IsResultOf(step, id)
    ensures Quiet(steps + [step]) && Names(steps + [step]) == Names(steps)
    ensures Summarize(steps + [step]).startCount == Summarize(steps).startCount
  {
    ExplicitSingle(id);
    SummarizeSnoc(steps, step);
    ResultKeepsLog(steps, step);
    var u := Summarize(steps);
    assert u.open - {id} == {} <==> u.open == {id};
  }

  /** Answering one of several calls leaves another one open. */
  lemma {:induction false} OpenAfterAnswer(calls: seq<ToolCall>, call: ToolCall)
    requires DistinctIds(calls) && call in calls
    ensures IdSet(calls) - {call.id} == {} <==> |calls| == 1
  {
    assert call.id in IdSet(calls);
    if |calls| > 1 {
      assert calls[0].id != calls[1].id;
      assert calls[0].id in IdSet(calls) && calls[1].id in IdSet(calls);
      assert calls[0].id in IdSet(calls) - {call.id} || calls[1].id in IdSet(calls) - {call.id};
    }
  }

  /** The answer to a main-loop question closes its response. */
  lemma {:induction false} MainAnswerRecorded(steps: seq<Step>, step: Step, call: ToolCall)
    requires PausedMain(steps)
    requires call in Calls(steps[|steps| - 1].payload.items)
    requires IsResultOf(step, call.id)
    ensures ReadyForModel(steps + [step])
    ensures Summarize(steps + [step]).startCount == Summarize(steps).startCount
  {
    var calls := Calls(steps[|steps| - 1].payload.items);
    var u := Summarize(steps);
    SummarizeSnoc(steps, step);
    assert call.id in IdSet(calls);
    ResultKeepsLog(steps, step);
    OpenAfterAnswer(calls, call);
    assert u.explicitResults + [] == u.explicitResults;
  }

  // The pending question

  /** The last `human_input` call of a response. */
  function LastHumanInput(calls: seq<ToolCall>): Option<ToolCall> {
    UnresolvedHumanInput(calls, {})
  }

  lemma {:induction false} UnresolvedWhenNoneResolved(calls: seq<ToolCall>, resolved: set<string>)
    requires forall c :: c in calls ==> c.id !in resolved
    ensures UnresolvedHumanInput(calls, resolved) == LastHumanInput(calls)
  {
    if calls != [] {
      UnresolvedWhenNoneResolved(calls[..|calls| - 1], resolved);
    }
  }

  /** The call asks a person and no later one of the response does. */
  ghost predicate IsLastHumanInput(calls: seq<ToolCall>, call: ToolCall) {
    exists j :: 0 <= j < |calls| && calls[j] == call && IsHumanInput(call) && forall l :: j < l < |calls| ==> !IsHumanInput(calls[l])
  }

  lemma {:induction false} LastHumanInputExists(calls: seq<ToolCall>)
    ensures LastHumanInput(calls).Some? <==> HasHumanInput(calls)
    ensures LastHumanInput(calls).Some? ==> LastHumanInput(calls).value in calls && IsHumanInput(LastHumanInput(calls).value)
    ensures LastHumanInput(calls).Some? ==> IsLastHumanInput(calls, LastHumanInput(calls).value)
  {
    if calls != [] {
      LastHumanInputExists(calls[..|calls| - 1]);
      assert calls == calls[..|calls| - 1] + [calls[|calls| - 1]];
    }
  }

  lemma {:induction false} MentionedResults(steps: seq<Step>)
    ensures ResolvedMain(steps) <= Summarize(steps).results
    ensures forall r :: r in ResolvedSkill(steps) ==> r.1 in Summarize(steps).mentioned
  {
    if steps != [] {
      var front := steps[..|steps| - 1];
      MentionedResults(front);
      assert steps == front + [steps[|steps| - 1]];
      forall s | s in steps
        ensures s.payload.ToolResult? ==> s.payload.id in Summarize(steps).results
        ensures s.payload.SkillToolResult? ==> s.payload.id in Summarize(steps).mentioned
      {
        if s in front {
          if s.payload.ToolResult? {
            assert s.payload.id in ResolvedMain(front);
          }
          if s.payload.SkillToolResult? {
            assert (s.payload.invocationId, s.payload.id) in ResolvedSkill(front);
          }
        }
      }
    }
  }

  lemma {:induction false} StartedIsFound(steps: seq<Step>, id: string)
    requires id in Summarize(steps).started
    ensures InvocationStarted(steps, id).Some? && InvocationStarted(steps, id).value.id == id
  {
    var front := steps[..|steps| - 1];
    if id in Summarize(front).started {
      StartedIsFound(front, id);
    } else {
      NotStarted(front, id);
    }
  }

  lemma {:induction false} NotStarted(steps: seq<Step>, id: string)
    requires id !in Summarize(steps).started
    ensures InvocationStarted(steps, id).None?
  {
    if steps != [] {
      NotStarted(steps[..|steps| - 1], id);
    }
  }

  /** A run paused by the main loop finds the last question of its last response. */
  lemma {:induction false} MainQuestionIsLast(steps: seq<Step>)
    requires PausedMain(steps)
    ensures LastHumanInput(Calls(steps[|steps| - 1].payload.items)).Some?
    ensures LatestQuestion(steps, |steps|) ==
            Some(MainQuestion(LastHumanInput(Calls(steps[|steps| - 1].payload.items)).value))
    ensures IsLastHumanInput(Calls(steps[|steps| - 1].payload.items), LastHumanInput(Calls(steps[|steps| - 1].payload.items)).value)
  {
    var calls := Calls(steps[|steps| - 1].payload.items);
    MentionedResults(steps);
    assert forall c :: c in calls ==> c.id in IdSet(calls);
    UnresolvedWhenNoneResolved(calls, ResolvedMain(steps));
    LastHumanInputExists(calls);
    assert StepQuestion(steps, steps[|steps| - 1]) == Some(MainQuestion(LastHumanInput(calls).value));
  }

  /** A run paused inside a skill finds the question of its last skill response. */
  lemma {:induction false} SkillQuestionIsLast(steps: seq<Step>, id: string)
    requires PausedSkill(steps, id)
    ensures InvocationStarted(steps, id).Some? && InvocationStarted(steps, id).value.id == id
    ensures LatestQuestion(steps, |steps|) ==
            Some(SkillQuestion(InvocationStarted(steps, id).value, Calls(steps[|steps| - 1].payload.items)[0]))
  {
    var calls := Calls(steps[|steps| - 1].payload.items);
    var resolved := set r | r in ResolvedSkill(steps) && r.0 == id :: r.1;
    MentionedResults(steps);
    UnresolvedWhenNoneResolved(calls, resolved);
    StartedIsFound(steps, id);
    assert calls == [calls[0]];
    assert LastHumanInput(calls) == Some(calls[0]);
  }
}
