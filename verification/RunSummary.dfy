// A one-pass digest of a run's log, and what it says about tool-call pairing.
module RunSummary {
  import opened Prelude
  import opened RunModel
  import opened RunLog

  /**
   * `calls` are the call ids of the latest assistant response and `open` those without a
   * result since. `lost`: some earlier response was followed by another one while a call was
   * open. `misplaced`: some pausing call was not the last of its response, or `human_input`
   * did not come alone.
   */
  datatype Summary = Summary(
    recorded: set<string>,
    taken: set<string>,
    mentioned: set<string>,
    results: set<string>,
    repeated: bool,
    started: set<string>,
    startCount: nat,
    calls: seq<string>,
    open: set<string>,
    lost: bool,
    misplaced: bool,
    explicitCalls: seq<string>,
    explicitResults: seq<string>)

  const EmptySummary := Summary({}, {}, {}, {}, false, {}, 0, [], {}, false, false, [], [])

  function ExplicitOnly(ids: seq<string>): seq<string> {
    if ids == [] then []
    else (if IsExplicitId(ids[0]) then [ids[0]] else []) + ExplicitOnly(ids[1..])
  }

  function AbsorbResponse(u: Summary, calls: seq<ToolCall>): Summary {
    u.(recorded := u.recorded + IdSet(calls),
       taken := u.taken + IdSet(calls),
       lost := u.lost || u.open != {},
       calls := Ids(calls),
       open := IdSet(calls),
       misplaced := u.misplaced || (HasHumanInput(calls) && |calls| != 1),
       explicitCalls := u.explicitCalls + ExplicitOnly(Ids(calls)))
  }

  function AbsorbResult(u: Summary, id: string): Summary {
    u.(mentioned := u.mentioned + {id},
       repeated := u.repeated || id in u.results,
       results := u.results + {id},
       open := u.open - {id},
       explicitResults := u.explicitResults + if IsExplicitId(id) then [id] else [])
  }

  predicate IsLastCall(u: Summary, id: string) {
    u.calls != [] && u.calls[|u.calls| - 1] == id
  }

  function Absorb(u: Summary, payload: StepPayload): Summary {
    match payload
    case AssistantResponse(_, items) => AbsorbResponse(u, Calls(items))
    case ToolResult(id, _, _) => AbsorbResult(u, id)
    case SkillStarted(id, _, _, _) =>
      u.(mentioned := u.mentioned + {id}, started := u.started + {id}, startCount := u.startCount + 1)
    case SkillAssistantResponse(id, _, items) =>
      u.(mentioned := u.mentioned + {id},
         taken := u.taken + IdSet(Calls(items)),
         misplaced := u.misplaced || (PausesSkill(items) && !IsLastCall(u, id)))
    case SkillToolResult(_, id, _, _) => u.(mentioned := u.mentioned + {id})
    case _ => u
  }

  function Summarize(steps: seq<Step>): Summary {
    if steps == [] then EmptySummary
    else Absorb(Summarize(steps[..|steps| - 1]), steps[|steps| - 1].payload)
  }

  lemma {:induction false} SummarizeSnoc(steps: seq<Step>, step: Step)
    ensures Summarize(steps + [step]) == Absorb(Summarize(steps), step.payload)
  {
    assert (steps + [step])[..|steps|] == steps;
  }

  /** Every recorded call has been answered in time. */
  predicate Settled(u: Summary) {
    !u.lost && u.open == {}
  }

  // What `Settled`, `misplaced` and `repeated` mean on the log itself

  predicate IsResponse(step: Step) {
    step.payload.AssistantResponse?
  }

  predicate IsResultOf(step: Step, id: string) {
    step.payload.ToolResult? && step.payload.id == id
  }

  /** A result for `id` follows step `i` before the next assistant response. */
  ghost predicate Answered(steps: seq<Step>, i: nat, id: string) {
    exists j :: i < j < |steps| && IsResultOf(steps[j], id) && forall k :: i < k < j ==> !IsResponse(steps[k])
  }

  /** Each recorded call is answered before the next assistant response. */
  ghost predicate Paired(steps: seq<Step>) {
    forall i: nat, id :: i < |steps| && ContainsToolCall(steps[i], id) ==> Answered(steps, i, id)
  }

  /** No call id has two results. */
  ghost predicate SingleResults(steps: seq<Step>) {
    forall i, j :: 0 <= i < j < |steps| && steps[i].payload.ToolResult? ==> !IsResultOf(steps[j], steps[i].payload.id)
  }

  /** Step `r` is the latest assistant response before step `i`. */
  predicate LatestResponse(steps: seq<Step>, r: nat, i: nat) {
    r < i <= |steps| && IsResponse(steps[r]) && forall k :: r < k < i ==> !IsResponse(steps[k])
  }

  predicate EndsWithCall(step: Step, id: string) {
    step.payload.AssistantResponse? &&
    var calls := Calls(step.payload.items);
    calls != [] && calls[|calls| - 1].id == id
  }

  /** A response `i` that asks a person comes alone, or is of the skill that the latest response called last. */
  ghost predicate PausesLastAt(steps: seq<Step>, i: nat)
    requires i < |steps|
  {
    match steps[i].payload
    case AssistantResponse(_, items) => HasHumanInput(Calls(items)) ==> |Calls(items)| == 1
    case SkillAssistantResponse(id, _, items) =>
      PausesSkill(items) ==> exists r: nat :: LatestResponse(steps, r, i) && EndsWithCall(steps[r], id)
    case _ => true
  }

  /** `human_input` comes alone, and a skill that pauses was the last call of its response. */
  ghost predicate PausesLast(steps: seq<Step>) {
    forall i :: 0 <= i < |steps| ==> PausesLastAt(steps, i)
  }

  lemma {:induction false} AnsweredSnoc(steps: seq<Step>, step: Step, i: nat, id: string)
    requires i < |steps|
    ensures Answered(steps + [step], i, id) <==>
            Answered(steps, i, id) || (IsResultOf(step, id) && forall k :: i < k < |steps| ==> !IsResponse(steps[k]))
  {
    var all := steps + [step];
    if Answered(steps, i, id) {
      var j :| i < j < |steps| && IsResultOf(steps[j], id) && forall k :: i < k < j ==> !IsResponse(steps[k]);
      assert all[j] == steps[j] && forall k :: i < k < j ==> all[k] == steps[k];
    }
    if IsResultOf(step, id) && forall k :: i < k < |steps| ==> !IsResponse(steps[k]) {
      assert all[|steps|] == step && forall k :: i < k < |steps| ==> all[k] == steps[k];
    }
    if Answered(all, i, id) {
      var j :| i < j < |all| && IsResultOf(all[j], id) && forall k :: i < k < j ==> !IsResponse(all[k]);
      assert forall k :: i < k < |steps| ==> all[k] == steps[k];
      if j < |steps| {
        assert IsResultOf(steps[j], id);
      }
    }
  }

  /** No assistant response follows step `i`. */
  predicate NoResponseAfter(steps: seq<Step>, i: nat) {
    forall k :: i < k < |steps| ==> !IsResponse(steps[k])
  }

  ghost predicate OpenCall(steps: seq<Step>, i: nat, id: string) {
    i < |steps| && ContainsToolCall(steps[i], id) && !Answered(steps, i, id)
  }

  /** Call `id` of the latest response has no result yet. */
  ghost predicate IsOpen(steps: seq<Step>, id: string) {
    exists i: nat :: OpenCall(steps, i, id) && NoResponseAfter(steps, i)
  }

  /** Some call of an earlier response was not answered in time. */
  ghost predicate IsLost(steps: seq<Step>) {
    exists i: nat, id :: OpenCall(steps, i, id) && !NoResponseAfter(steps, i)
  }

  lemma {:induction false} OpenCallSnoc(steps: seq<Step>, step: Step, i: nat, id: string)
    requires i < |steps|
    ensures NoResponseAfter(steps + [step], i) <==> NoResponseAfter(steps, i) && !IsResponse(step)
    ensures OpenCall(steps + [step], i, id) <==>
            OpenCall(steps, i, id) && !(IsResultOf(step, id) && NoResponseAfter(steps, i))
  {
    AnsweredSnoc(steps, step, i, id);
    var all := steps + [step];
    assert all[|steps|] == step;
    assert forall k :: 0 <= k < |steps| ==> all[k] == steps[k];
  }

  lemma {:induction false} IsOpenSnoc(steps: seq<Step>, step: Step, id: string)
    ensures IsOpen(steps + [step], id) <==>
            if IsResponse(step) then ContainsToolCall(step, id) else IsOpen(steps, id) && !IsResultOf(step, id)
  {
    var all, n := steps + [step], |steps|;
    assert all[n] == step && NoResponseAfter(all, n) && !Answered(all, n, id);
    if IsOpen(all, id) {
      var i: nat :| OpenCall(all, i, id) && NoResponseAfter(all, i);
      if i < n {
        OpenCallSnoc(steps, step, i, id);
      }
    }
    if IsResponse(step) && ContainsToolCall(step, id) {
      assert OpenCall(all, n, id);
    }
    if !IsResponse(step) && IsOpen(steps, id) && !IsResultOf(step, id) {
      var i: nat :| OpenCall(steps, i, id) && NoResponseAfter(steps, i);
      OpenCallSnoc(steps, step, i, id);
    }
  }

  lemma {:induction false} IsLostSnoc(steps: seq<Step>, step: Step)
    ensures IsLost(steps + [step]) <==> IsLost(steps) || (IsResponse(step) && exists id :: IsOpen(steps, id))
  {
    var all, n := steps + [step], |steps|;
    if IsLost(all) {
      var i: nat, id :| OpenCall(all, i, id) && !NoResponseAfter(all, i);
      assert i < n;
      OpenCallSnoc(steps, step, i, id);
      if NoResponseAfter(steps, i) {
        assert IsOpen(steps, id);
      }
    }
    if IsLost(steps) {
      var i: nat, id :| OpenCall(steps, i, id) && !NoResponseAfter(steps, i);
      OpenCallSnoc(steps, step, i, id);
    }
    if IsResponse(step) && exists id :: IsOpen(steps, id) {
      var id :| IsOpen(steps, id);
      var i: nat :| OpenCall(steps, i, id) && NoResponseAfter(steps, i);
      OpenCallSnoc(steps, step, i, id);
    }
  }

  lemma {:induction false} OpenMeaning(steps: seq<Step>)
    ensures forall id :: id in Summarize(steps).open <==> IsOpen(steps, id)
    ensures Summarize(steps).lost <==> IsLost(steps)
  {
    if steps != [] {
      var front, step := steps[..|steps| - 1], steps[|steps| - 1];
      assert steps == front + [step];
      OpenMeaning(front);
      IsLostSnoc(front, step);
      forall id
        ensures id in Summarize(steps).open <==> IsOpen(steps, id)
      {
        IsOpenSnoc(front, step, id);
      }
    }
  }

  /** `Settled` says exactly that every recorded call is answered before the next response. */
  lemma {:induction false} SettledMeansPaired(steps: seq<Step>)
    ensures Settled(Summarize(steps)) <==> Paired(steps)
  {
    OpenMeaning(steps);
    if Settled(Summarize(steps)) {
      forall i: nat, id | i < |steps| && ContainsToolCall(steps[i], id)
        ensures Answered(steps, i, id)
      {
        assert id !in Summarize(steps).open && !IsOpen(steps, id);
        assert !(OpenCall(steps, i, id) && NoResponseAfter(steps, i));
        assert !OpenCall(steps, i, id);
      }
    }
    if Paired(steps) {
      assert forall i: nat, id :: !OpenCall(steps, i, id);
    }
  }

  lemma {:induction false} ResultsMeaning(steps: seq<Step>)
    ensures forall id :: id in Summarize(steps).results <==> exists j :: 0 <= j < |steps| && IsResultOf(steps[j], id)
    ensures Summarize(steps).repeated <==> !SingleResults(steps)
  {
    if steps != [] {
      var front, step := steps[..|steps| - 1], steps[|steps| - 1];
      assert steps == front + [step];
      ResultsMeaning(front);
      assert forall k :: 0 <= k < |front| ==> front[k] == steps[k];
    }
  }

  lemma {:induction false} LatestCallsMeaning(steps: seq<Step>, id: string)
    ensures IsLastCall(Summarize(steps), id) <==>
            exists r: nat :: LatestResponse(steps, r, |steps|) && EndsWithCall(steps[r], id)
  {
    if steps != [] {
      var front, step := steps[..|steps| - 1], steps[|steps| - 1];
      assert steps == front + [step];
      LatestCallsMeaning(front, id);
      assert forall k :: 0 <= k < |front| ==> front[k] == steps[k];
      if IsResponse(step) {
        assert LatestResponse(steps, |front|, |steps|);
        assert forall r: nat :: LatestResponse(steps, r, |steps|) ==> r == |front|;
      } else {
        assert forall r: nat :: LatestResponse(steps, r, |steps|) <==> LatestResponse(front, r, |front|);
      }
    }
  }

  /** `misplaced` says exactly that some pausing call was not the last of its response. */
  /** Later steps do not change how an earlier response paused. */
  lemma {:induction false} PausesLastStays(front: seq<Step>, step: Step, i: nat)
    requires i < |front|
    ensures PausesLastAt(front + [step], i) <==> PausesLastAt(front, i)
  {
    var steps := front + [step];
    hide EndsWithCall;
    assert forall k :: 0 <= k < |front| ==> front[k] == steps[k];
    assert forall r: nat :: LatestResponse(steps, r, i) <==> LatestResponse(front, r, i);
  }

  /** What the last step adds to the flag. */
  lemma {:induction false} LastStepPausesLast(front: seq<Step>, step: Step)
    ensures Summarize(front + [step]).misplaced <==>
            Summarize(front).misplaced || !PausesLastAt(front + [step], |front|)
  {
    var steps := front + [step];
    assert steps[..|front|] == front;
    if step.payload.SkillAssistantResponse? {
      var id := step.payload.invocationId;
      LatestCallsMeaning(front, id);
      hide EndsWithCall;
      hide IsLastCall;
      assert forall k :: 0 <= k < |front| ==> front[k] == steps[k];
      assert forall r: nat :: LatestResponse(steps, r, |front|) <==> LatestResponse(front, r, |front|);
    }
  }

  lemma {:induction false} MisplacedMeaning(steps: seq<Step>)
    ensures !Summarize(steps).misplaced <==> PausesLast(steps)
  {
    if steps != [] {
      var front, step := steps[..|steps| - 1], steps[|steps| - 1];
      assert steps == front + [step];
      MisplacedMeaning(front);
      LastStepPausesLast(front, step);
      hide PausesLastAt;
      hide Summarize;
      forall i: nat | i < |front|
        ensures PausesLastAt(steps, i) <==> PausesLastAt(front, i)
      {
        PausesLastStays(front, step, i);
      }
    }
  }
}
