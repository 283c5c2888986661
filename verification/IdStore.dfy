// The run and step tables, keyed by id text, and the numbers allocated from them.
module IdStore {
  import opened Prelude
  import opened Decimal
  import opened Ids
  import opened RunModel

  datatype RunRow = RunRow(request: string, status: RunStatus)

  datatype StepRow = StepRow(kind: StepKind, payload: StepPayload)

  datatype StoreError = InvalidId(id: string) | DuplicateId(id: string) | MissingRun(id: string)

  /** The ids below `parent` are exactly its children 1 to `n`. */
  ghost predicate Numbered(ids: set<string>, parent: string, n: nat) {
    && (forall k: nat :: 1 <= k <= n ==> ChildId(parent, k) in ids)
    && (forall id :: id in ids && parent + "-" <= id ==> exists k: nat :: 1 <= k <= n && id == ChildId(parent, k))
  }

  /** The greatest id with a prefix, in text order. */
  predicate IsLatest(ids: set<string>, prefix: string, latest: Option<string>) {
    match latest
    case None => forall id :: id in ids ==> !(prefix <= id)
    case Some(top) => top in ids && prefix <= top && forall id :: id in ids && prefix <= id ==> id == top || Less(id, top)
  }

  predicate StrictlySorted(ids: seq<string>) {
    forall i, j :: 0 <= i < j < |ids| ==> Less(ids[i], ids[j])
  }

  /** The result of `select id from t where id like 'prefix%' order by id`. */
  ghost predicate OrderedSelection(ids: set<string>, prefix: string, ordered: seq<string>) {
    StrictlySorted(ordered) && forall id :: id in ordered <==> id in ids && prefix <= id
  }

  function Children(parent: string, n: nat): (children: seq<string>)
    ensures |children| == n
  {
    seq(n, i requires 0 <= i => ChildId(parent, i + 1))
  }

  /** All steps of a session whose k-th run has `counts[k - 1]` steps, in append order. */
  function SessionOrder(sessionId: string, counts: seq<nat>): seq<string> {
    if counts == [] then []
    else SessionOrder(sessionId, counts[..|counts| - 1]) +
         Children(ChildId(sessionId, |counts|), counts[|counts| - 1])
  }

  /** The children of every other id of the same level are untouched. */
  ghost predicate OthersKeepNumbering(before: set<string>, after: set<string>, parent: string) {
    forall other, m: nat :: other != parent && Dashes(other) == Dashes(parent) && Numbered(before, other, m) ==>
      Numbered(after, other, m)
  }

  /** What an insertion under the next number below `parent` does to the ids of its table. */
  ghost predicate Inserts(before: set<string>, after: set<string>, parent: string) {
    exists latest :: IsLatest(before, parent + "-", latest) &&
      match NextNumberAfter(latest)
      case Err(_) => after == before
      case Ok(number) => after == before + {ChildId(parent, number)}
  }

  method LatestIdWithPrefix(ids: set<string>, prefix: string) returns (latest: Option<string>)
    ensures IsLatest(ids, prefix, latest)
  {
    var rest := ids;
    ghost var seen := {};
    latest := None;
    while rest != {}
      invariant seen + rest == ids
      invariant IsLatest(seen, prefix, latest)
      decreases rest
    {
      var id :| id in rest;
      rest, seen := rest - {id}, seen + {id};
      if prefix <= id {
        match latest {
          case None => latest := Some(id);
          case Some(top) =>
            LessIsTotal(top, id);
            if Less(top, id) {
              forall other | Less(other, top) {
                LessTransitive(other, top, id);
              }
              latest := Some(id);
            }
        }
      }
    }
  }

  method SelectOrdered(ids: set<string>, prefix: string) returns (ordered: seq<string>)
    ensures OrderedSelection(ids, prefix, ordered)
  {
    var rest := set id | id in ids && prefix <= id;
    ordered := [];
    while rest != {}
      invariant rest <= ids && forall id :: id in rest ==> prefix <= id
      invariant StrictlySorted(ordered)
      invariant forall id :: id in ids && prefix <= id <==> id in ordered || id in rest
      invariant forall a, b :: a in rest && b in ordered ==> Less(a, b)
      decreases rest
    {
      var last := LatestIdWithPrefix(rest, prefix);
      ordered := [last.value] + ordered;
      rest := rest - {last.value};
    }
  }

  lemma {:induction false} LastIsNotBefore(ids: seq<string>)
    requires StrictlySorted(ids) && ids != []
    ensures ids[|ids| - 1] !in ids[..|ids| - 1]
    ensures forall id :: id in ids[..|ids| - 1] <==> id in ids && id != ids[|ids| - 1]
  {
    var last := ids[|ids| - 1];
    LessIsTotal(last, last);
    assert ids == ids[..|ids| - 1] + [last];
  }

  /** Sorting leaves no choice: equal contents in strict order are equal sequences. */
  lemma {:induction false} SortedIsUnique(a: seq<string>, b: seq<string>)
    requires StrictlySorted(a) && StrictlySorted(b)
    requires forall id :: id in a <==> id in b
    ensures a == b
  {
    hide Less;
    assert |a| > 0 ==> a[0] in b;
    assert |b| > 0 ==> b[0] in a;
    if a != [] && b != [] {
      var x, y := a[|a| - 1], b[|b| - 1];
      var front, back := a[..|a| - 1], b[..|b| - 1];
      GreatestIsLast(a, y);
      GreatestIsLast(b, x);
      LessIsTotal(x, y);
      LastIsNotBefore(a);
      LastIsNotBefore(b);
      assert x == y;
      forall id
        ensures id in front <==> id in back
      {
        assert id in front <==> id in a && id != x;
        assert id in back <==> id in b && id != y;
      }
      SortedIsUnique(front, back);
      assert a == front + [x] && b == back + [y];
    }
  }

  lemma {:induction false} GreatestIsLast(ids: seq<string>, id: string)
    requires StrictlySorted(ids) && id in ids
    ensures id == ids[|ids| - 1] || Less(id, ids[|ids| - 1])
  {
    var i :| 0 <= i < |ids| && ids[i] == id;
  }

  // Number allocation

  /** The next number computed from the table. */
  lemma {:induction false} NextNumber(ids: set<string>, parent: string, n: nat, latest: Option<string>)
    requires Numbered(ids, parent, n) && n <= NUMBER_LIMIT
    requires IsLatest(ids, parent + "-", latest)
    ensures NextNumberAfter(latest) == Ok(if n < NUMBER_LIMIT then n + 1 else NUMBER_LIMIT)
  {
    if n == 0 {
      assert latest.None?;
    } else {
      var top := Min(n, NUMBER_LIMIT - 1);
      var greatest := ChildId(parent, top);
      assert parent + "-" <= greatest;
      var k: nat :| 1 <= k <= n && latest.value == ChildId(parent, k);
      if k == NUMBER_LIMIT {
        LimitSortsEarly(parent);
        LessIsTotal(ChildId(parent, k), greatest);
      } else {
        SiblingOrder(parent, top, k);
        SiblingOrder(parent, k, top);
      }
      LessIsTotal(latest.value, greatest);
      assert k == top;
      NextAfterChild(parent, top);
    }
  }

  /** Adding the next child extends its parent's numbering and no other one's. */
  lemma {:induction false} NumberingGrows(ids: set<string>, parent: string, n: nat)
    requires Numbered(ids, parent, n)
    ensures ChildId(parent, n + 1) !in ids
    ensures Numbered(ids + {ChildId(parent, n + 1)}, parent, n + 1)
    ensures OthersKeepNumbering(ids, ids + {ChildId(parent, n + 1)}, parent)
  {
    var added := ChildId(parent, n + 1);
    assert parent + "-" <= added;
    if added in ids {
      var k: nat :| 1 <= k <= n && added == ChildId(parent, k);
      SiblingsDiffer(parent, n + 1, k);
    }
    forall other, m: nat | other != parent && Dashes(other) == Dashes(parent) && Numbered(ids, other, m)
      ensures Numbered(ids + {added}, other, m)
    {
      PrefixSelectsOwnChildren(other, parent, n + 1);
    }
  }

  class SqliteStore {
    var runs: map<string, RunRow>
    var steps: map<string, StepRow>

    constructor ()
      ensures runs == map[] && steps == map[]
    {
      runs, steps := map[], map[];
    }

    /** Inserts a running run under the next number; the primary key refuses a used one. */
    method CreateRun(sessionId: string, request: string, ghost n: nat) returns (result: Result<string, StoreError>)
      modifies this`runs
      ensures old(Numbered(runs.Keys, sessionId, n)) && n < NUMBER_LIMIT ==>
                && result == Ok(ChildId(sessionId, n + 1))
                && ChildId(sessionId, n + 1) !in old(runs)
                && runs == old(runs)[ChildId(sessionId, n + 1) := RunRow(request, Running)]
                && Numbered(runs.Keys, sessionId, n + 1)
      ensures old(Numbered(runs.Keys, sessionId, n)) && n == NUMBER_LIMIT ==> result == Err(DuplicateId(ChildId(sessionId, n)))
      ensures result.Err? ==> runs == old(runs)
      ensures Inserts(old(runs.Keys), runs.Keys, sessionId)
      ensures old(Numbered(runs.Keys, sessionId, n)) && n <= NUMBER_LIMIT ==> OthersKeepNumbering(old(runs.Keys), runs.Keys, sessionId)
    {
      var latest := LatestIdWithPrefix(runs.Keys, sessionId + "-");
      if Numbered(runs.Keys, sessionId, n) && n <= NUMBER_LIMIT {
        NextNumber(runs.Keys, sessionId, n, latest);
        NumberingGrows(runs.Keys, sessionId, n);
      }
      var number := NextNumberAfter(latest);
      if number.Err? {
        return Err(InvalidId(number.error));
      }
      var runId := ChildId(sessionId, number.value);
      if runId in runs {
        return Err(DuplicateId(runId));
      }
      ghost var before := runs.Keys;
      runs := runs[runId := RunRow(request, Running)];
      assert runs.Keys == before + {runId};
      result := Ok(runId);
    }

    /** Appends a step under the next number of its run. */
    method AppendStep(runId: string, kind: StepKind, payload: StepPayload, ghost n: nat) returns (result: Result<string, StoreError>)
      modifies this`steps
      ensures old(Numbered(steps.Keys, runId, n)) && n < NUMBER_LIMIT ==>
                && result == Ok(ChildId(runId, n + 1))
                && ChildId(runId, n + 1) !in old(steps)
                && steps == old(steps)[ChildId(runId, n + 1) := StepRow(kind, payload)]
                && Numbered(steps.Keys, runId, n + 1)
      ensures old(Numbered(steps.Keys, runId, n)) && n == NUMBER_LIMIT ==> result == Err(DuplicateId(ChildId(runId, n)))
      ensures result.Err? ==> steps == old(steps)
      ensures Inserts(old(steps.Keys), steps.Keys, runId)
      ensures old(Numbered(steps.Keys, runId, n)) && n <= NUMBER_LIMIT ==> OthersKeepNumbering(old(steps.Keys), steps.Keys, runId)
    {
      var latest := LatestIdWithPrefix(steps.Keys, runId + "-");
      if Numbered(steps.Keys, runId, n) && n <= NUMBER_LIMIT {
        NextNumber(steps.Keys, runId, n, latest);
        NumberingGrows(steps.Keys, runId, n);
      }
      var number := NextNumberAfter(latest);
      if number.Err? {
        return Err(InvalidId(number.error));
      }
      var stepId := ChildId(runId, number.value);
      if stepId in steps {
        return Err(DuplicateId(stepId));
      }
      ghost var before := steps.Keys;
      steps := steps[stepId := StepRow(kind, payload)];
      assert steps.Keys == before + {stepId};
      result := Ok(stepId);
    }

    method UpdateRunStatus(runId: string, status: RunStatus) returns (result: Result<RunRow, StoreError>)
      modifies this`runs
      ensures runId !in old(runs) ==> result == Err(MissingRun(runId)) && runs == old(runs)
      ensures runId in old(runs) ==>
                && result == Ok(RunRow(old(runs)[runId].request, status))
                && runs == old(runs)[runId := result.value]
    {
      if runId !in runs {
        return Err(MissingRun(runId));
      }
      var row := runs[runId].(status := status);
      runs := runs[runId := row];
      result := Ok(row);
    }

    /** The ids of the steps below a run or a session, in text order. */
    method LoadStepIds(parent: string) returns (ordered: seq<string>)
      ensures OrderedSelection(steps.Keys, parent + "-", ordered)
    {
      ordered := SelectOrdered(steps.Keys, parent + "-");
    }

    method LoadRunIds(sessionId: string) returns (ordered: seq<string>)
      ensures OrderedSelection(runs.Keys, sessionId + "-", ordered)
    {
      ordered := SelectOrdered(runs.Keys, sessionId + "-");
    }
  }

  // Text order is append order

  lemma {:induction false} ChildrenAreSorted(parent: string, n: nat)
    requires n < NUMBER_LIMIT
    ensures StrictlySorted(Children(parent, n))
  {
    forall i, j | 0 <= i < j < n
      ensures Less(Children(parent, n)[i], Children(parent, n)[j])
    {
      SiblingOrder(parent, i + 1, j + 1);
    }
  }

  /**
   * `order by id` yields the children of an id in the order they were appended exactly while
   * there are fewer than a million of them.
   */
  lemma {:induction false} OrderByIdIsAppendOrder(ids: set<string>, parent: string, n: nat, ordered: seq<string>)
    requires Numbered(ids, parent, n) && n <= NUMBER_LIMIT
    requires OrderedSelection(ids, parent + "-", ordered)
    ensures ordered == Children(parent, n) <==> n < NUMBER_LIMIT
  {
    var children := Children(parent, n);
    if n < NUMBER_LIMIT {
      ChildrenAreSorted(parent, n);
      forall id
        ensures id in ordered <==> id in children
      {
        if id in ids && parent + "-" <= id {
          var k: nat :| 1 <= k <= n && id == ChildId(parent, k);
          assert children[k - 1] == id;
        }
        if id in children {
          var i :| 0 <= i < n && children[i] == id;
          assert ChildId(parent, i + 1) in ids && parent + "-" <= id;
        }
      }
      SortedIsUnique(ordered, children);
    } else {
      LimitSortsEarly(parent);
      LessIsTotal(children[n - 1], children[n - 2]);
      assert !StrictlySorted(children);
    }
  }

  /** One of the steps of a session whose run k has `counts[k - 1]` steps. */
  ghost predicate IsStepOf(id: string, sessionId: string, counts: seq<nat>) {
    exists r: nat, k: nat :: 1 <= r <= |counts| && 1 <= k <= counts[r - 1] && id == ChildId(ChildId(sessionId, r), k)
  }

  /** The step ids of a session are those of its runs, run k having `counts[k - 1]` steps. */
  ghost predicate SessionNumbered(ids: set<string>, sessionId: string, counts: seq<nat>) {
    forall id :: id in ids && sessionId + "-" <= id <==> IsStepOf(id, sessionId, counts)
  }

  predicate BelowLimit(counts: seq<nat>) {
    |counts| < NUMBER_LIMIT && forall i :: 0 <= i < |counts| ==> counts[i] < NUMBER_LIMIT
  }

  lemma {:induction false} SessionOrderMembers(sessionId: string, counts: seq<nat>)
    ensures forall id :: id in SessionOrder(sessionId, counts) <==> IsStepOf(id, sessionId, counts)
  {
    if counts != [] {
      var n := |counts|;
      var front, last := counts[..n - 1], Children(ChildId(sessionId, n), counts[n - 1]);
      SessionOrderMembers(sessionId, front);
      forall id
        ensures id in SessionOrder(sessionId, counts) <==> IsStepOf(id, sessionId, counts)
      {
        StepOfLastRun(id, sessionId, counts);
      }
    }
  }

  lemma {:induction false} ChildrenMembers(parent: string, n: nat, id: string)
    ensures id in Children(parent, n) <==> exists k: nat :: 1 <= k <= n && id == ChildId(parent, k)
  {
    hide ChildId;
    var children := Children(parent, n);
    if id in children {
      var i :| 0 <= i < n && children[i] == id;
      assert id == ChildId(parent, i + 1);
    }
    if k: nat :| 1 <= k <= n && id == ChildId(parent, k) {
      assert children[k - 1] == id;
    }
  }

  /** A step belongs to the last run or to one before it. */
  lemma {:induction false} StepOfLastRun(id: string, sessionId: string, counts: seq<nat>)
    requires counts != []
    ensures var n := |counts|;
            IsStepOf(id, sessionId, counts) <==>
            IsStepOf(id, sessionId, counts[..n - 1]) || id in Children(ChildId(sessionId, n), counts[n - 1])
  {
    var n := |counts|;
    var front, last := counts[..n - 1], Children(ChildId(sessionId, n), counts[n - 1]);
    ChildrenMembers(ChildId(sessionId, n), counts[n - 1], id);
    hide ChildId;
    hide Children;
    if IsStepOf(id, sessionId, front) {
      var r: nat, k: nat :| 1 <= r <= n - 1 && 1 <= k <= front[r - 1] && id == ChildId(ChildId(sessionId, r), k);
      assert counts[r - 1] == front[r - 1];
    }
    if IsStepOf(id, sessionId, counts) {
      var r: nat, k: nat :| 1 <= r <= n && 1 <= k <= counts[r - 1] && id == ChildId(ChildId(sessionId, r), k);
      if r < n {
        assert front[r - 1] == counts[r - 1];
      }
    }
  }

  lemma {:induction false} SessionOrderIsSorted(sessionId: string, counts: seq<nat>)
    requires BelowLimit(counts)
    ensures StrictlySorted(SessionOrder(sessionId, counts))
  {
    if counts != [] {
      var n := |counts|;
      var front, last := counts[..n - 1], Children(ChildId(sessionId, n), counts[n - 1]);
      var earlier := SessionOrder(sessionId, front);
      SessionOrderIsSorted(sessionId, front);
      SessionOrderMembers(sessionId, front);
      ChildrenAreSorted(ChildId(sessionId, n), counts[n - 1]);
      forall i, j | 0 <= i < |earlier| && 0 <= j < |last|
        ensures Less(earlier[i], last[j])
      {
        assert earlier[i] in earlier;
        var r: nat, k: nat :| 1 <= r <= n - 1 && 1 <= k <= front[r - 1] && earlier[i] == ChildId(ChildId(sessionId, r), k);
        CousinOrder(sessionId, r, k, n, j + 1);
      }
    }
  }

  /** Loading a session by id yields its runs one after the other, each in append order. */
  lemma {:induction false} SessionOrderIsAppendOrder(ids: set<string>, sessionId: string, counts: seq<nat>, ordered: seq<string>)
    requires SessionNumbered(ids, sessionId, counts) && BelowLimit(counts)
    requires OrderedSelection(ids, sessionId + "-", ordered)
    ensures ordered == SessionOrder(sessionId, counts)
  {
    SessionOrderIsSorted(sessionId, counts);
    SessionOrderMembers(sessionId, counts);
    SortedIsUnique(ordered, SessionOrder(sessionId, counts));
  }
}
