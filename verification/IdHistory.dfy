// The id tables over any history of created runs and appended steps.
module IdHistory {
  import opened Prelude
  import opened Ids
  import opened IdStore

  /** `run` is the number of a run of the session. */
  datatype Operation = CreateRun(session: string) | AppendStep(session: string, run: nat)

  datatype Tables = Tables(runs: set<string>, steps: set<string>)

  ghost predicate Follows(before: Tables, operation: Operation, after: Tables) {
    match operation
    case CreateRun(session) => Inserts(before.runs, after.runs, session) && after.steps == before.steps
    case AppendStep(session, run) => Inserts(before.steps, after.steps, ChildId(session, run)) && after.runs == before.runs
  }

  /** From the empty store, each operation takes the tables before it to the tables after it. */
  ghost predicate History(tables: seq<Tables>, operations: seq<Operation>) {
    && |tables| == |operations| + 1
    && tables[0] == Tables({}, {})
    && forall i :: 0 <= i < |operations| ==> Follows(tables[i], operations[i], tables[i + 1])
  }

  /** The number of steps of each run of the session; number one million is refused every time after the first. */
  function Counts(operations: seq<Operation>, session: string): seq<nat> {
    if operations == [] then []
    else
      var earlier := Counts(operations[..|operations| - 1], session);
      match operations[|operations| - 1]
      case CreateRun(other) => if other == session && |earlier| < NUMBER_LIMIT then earlier + [0] else earlier
      case AppendStep(other, run) =>
        if other == session && 1 <= run <= |earlier| && earlier[run - 1] < NUMBER_LIMIT
        then earlier[run - 1 := earlier[run - 1] + 1] else earlier
  }

  /** The session ids are of one level, and steps are appended to runs that exist. */
  predicate WellFormed(operations: seq<Operation>, level: nat) {
    forall i :: 0 <= i < |operations| ==>
      && Dashes(operations[i].session) == level
      && (operations[i].AppendStep? ==> 1 <= operations[i].run <= |Counts(operations[..i], operations[i].session)|)
  }

  predicate WithinLimit(counts: seq<nat>) {
    |counts| <= NUMBER_LIMIT && forall i :: 0 <= i < |counts| ==> counts[i] <= NUMBER_LIMIT
  }

  // One insertion

  lemma {:induction false} InsertionAdds(before: set<string>, after: set<string>, parent: string, n: nat)
    requires Inserts(before, after, parent) && Numbered(before, parent, n) && n <= NUMBER_LIMIT
    ensures n < NUMBER_LIMIT ==> after == before + {ChildId(parent, n + 1)} && Numbered(after, parent, n + 1)
    ensures n == NUMBER_LIMIT ==> after == before
    ensures OthersKeepNumbering(before, after, parent)
  {
    hide Numbered;
    hide OthersKeepNumbering;
    var latest :| IsLatest(before, parent + "-", latest) &&
      match NextNumberAfter(latest) {
        case Err(_) => after == before
        case Ok(number) => after == before + {ChildId(parent, number)}
      };
    hide NextNumberAfter;
    hide IsLatest;
    NextNumber(before, parent, n, latest);
    if n < NUMBER_LIMIT {
      NumberingGrows(before, parent, n);
    } else {
      LastIsThere(before, parent, n);
      assert after == before;
      NothingChanges(before, parent);
    }
  }

  lemma {:induction false} LastIsThere(ids: set<string>, parent: string, n: nat)
    requires Numbered(ids, parent, n) && n > 0
    ensures ChildId(parent, n) in ids
  {
  }

  lemma {:induction false} NothingChanges(ids: set<string>, parent: string)
    ensures OthersKeepNumbering(ids, ids, parent)
  {
  }

  lemma {:induction false} ChildDashes(parent: string, n: nat)
    ensures Dashes(ChildId(parent, n)) == Dashes(parent) + 1
  {
    NoDashesInDigits(ChildId(parent, n)[|parent| + 1..]);
    DashesConcat(parent, "-");
    assert Dashes("-") == 1 by { assert "-"[..0] == ""; }
    DashesConcat(parent + "-", ChildId(parent, n)[|parent| + 1..]);
  }

  /** A step id starts with the id of its own session only. */
  lemma {:induction false} PrefixSelectsOwnSession(session: string, other: string, run: nat, n: nat)
    requires Dashes(session) == Dashes(other)
    ensures session + "-" <= ChildId(ChildId(other, run), n) <==> session == other
  {
    var middle, id, prefix := ChildId(other, run), ChildId(ChildId(other, run), n), session + "-";
    assert other + "-" <= middle <= id;
    ChildDashes(other, run);
    hide ChildId;
    if prefix <= id && |prefix| <= |middle| {
      assert prefix == id[..|prefix|] == middle[..|prefix|];
      PrefixSelectsOwnChildren(session, other, run);
    } else if prefix <= id {
      var rest := prefix[|middle|..];
      assert prefix == middle + rest;
      DashesConcat(session, "-");
      assert Dashes("-") == 1 by { assert "-"[..0] == ""; }
      DashesConcat(middle, rest);
      assert false;
    }
  }

  /** Appending to another session's run leaves a session's steps alone. */
  lemma {:induction false} OtherSessionsDoNotMatter(before: set<string>, after: set<string>, session: string, counts: seq<nat>,
                                                    other: string, run: nat)
    requires Inserts(before, after, ChildId(other, run)) && other != session && Dashes(other) == Dashes(session)
    requires SessionNumbered(before, session, counts)
    ensures SessionNumbered(after, session, counts)
  {
    var latest :| IsLatest(before, ChildId(other, run) + "-", latest) &&
      match NextNumberAfter(latest) {
        case Err(_) => after == before
        case Ok(number) => after == before + {ChildId(ChildId(other, run), number)}
      };
    hide IsLatest;
    hide NextNumberAfter;
    hide ChildId;
    if NextNumberAfter(latest).Ok? {
      PrefixSelectsOwnSession(session, other, run, NextNumberAfter(latest).value);
    }
    assert forall id :: session + "-" <= id ==> (id in after <==> id in before);
  }

  /** The steps of one run of a session are numbered on their own. */
  lemma {:induction false} RunIsNumbered(ids: set<string>, session: string, counts: seq<nat>, run: nat)
    requires SessionNumbered(ids, session, counts) && 1 <= run <= |counts|
    ensures Numbered(ids, ChildId(session, run), counts[run - 1])
  {
    var runId := ChildId(session, run);
    ChildDashes(session, run);
    assert session + "-" <= runId;
    forall id | id in ids && runId + "-" <= id
      ensures exists k: nat :: 1 <= k <= counts[run - 1] && id == ChildId(runId, k)
    {
      assert session + "-" <= id;
      var r: nat, k: nat :| 1 <= r <= |counts| && 1 <= k <= counts[r - 1] && id == ChildId(ChildId(session, r), k);
      ChildDashes(session, r);
      PrefixSelectsOwnChildren(runId, ChildId(session, r), k);
      SiblingsDiffer(session, run, r);
    }
  }

  /** The next step of a run joins the session. */
  lemma {:induction false} SessionGrows(ids: set<string>, session: string, counts: seq<nat>, run: nat)
    requires SessionNumbered(ids, session, counts) && 1 <= run <= |counts|
    ensures SessionNumbered(ids + {ChildId(ChildId(session, run), counts[run - 1] + 1)}, session,
                            counts[run - 1 := counts[run - 1] + 1])
  {
    var added, more := ChildId(ChildId(session, run), counts[run - 1] + 1), counts[run - 1 := counts[run - 1] + 1];
    assert session + "-" <= added;
    forall id
      ensures IsStepOf(id, session, more) <==> IsStepOf(id, session, counts) || id == added
    {
      StepOfLongerRun(id, session, counts, run);
    }
  }

  lemma {:induction false} StepOfLongerRun(id: string, session: string, counts: seq<nat>, run: nat)
    requires 1 <= run <= |counts|
    ensures IsStepOf(id, session, counts[run - 1 := counts[run - 1] + 1]) <==>
            IsStepOf(id, session, counts) || id == ChildId(ChildId(session, run), counts[run - 1] + 1)
  {
    hide ChildId;
    var more := counts[run - 1 := counts[run - 1] + 1];
    if IsStepOf(id, session, counts) {
      var r: nat, k: nat :| 1 <= r <= |counts| && 1 <= k <= counts[r - 1] && id == ChildId(ChildId(session, r), k);
      assert 1 <= r <= |more| && 1 <= k <= more[r - 1];
    }
    if id == ChildId(ChildId(session, run), counts[run - 1] + 1) {
      assert 1 <= run <= |more| && 1 <= counts[run - 1] + 1 <= more[run - 1];
    }
    if IsStepOf(id, session, more) {
      var r: nat, k: nat :| 1 <= r <= |more| && 1 <= k <= more[r - 1] && id == ChildId(ChildId(session, r), k);
      if r != run || k <= counts[run - 1] {
        assert 1 <= r <= |counts| && 1 <= k <= counts[r - 1];
      }
    }
  }

  /** A run without steps changes no step. */
  lemma {:induction false} EmptyRunJoins(ids: set<string>, session: string, counts: seq<nat>)
    requires SessionNumbered(ids, session, counts)
    ensures SessionNumbered(ids, session, counts + [0])
  {
    assert (counts + [0])[..|counts|] == counts;
    forall id
      ensures IsStepOf(id, session, counts + [0]) <==> IsStepOf(id, session, counts)
    {
      StepOfLastRun(id, session, counts + [0]);
    }
  }

  // Any history

  /** What the tables hold of one session. */
  ghost predicate Holds(tables: Tables, session: string, counts: seq<nat>) {
    && WithinLimit(counts)
    && Numbered(tables.runs, session, |counts|)
    && SessionNumbered(tables.steps, session, counts)
  }

  lemma {:induction false} RunCreated(before: Tables, after: Tables, session: string, counts: seq<nat>, other: string)
    requires Follows(before, CreateRun(other), after) && Dashes(other) == Dashes(session)
    requires Holds(before, session, counts)
    requires other != session ==> exists n: nat :: n <= NUMBER_LIMIT && Numbered(before.runs, other, n)
    ensures Holds(after, session, if other == session && |counts| < NUMBER_LIMIT then counts + [0] else counts)
  {
    hide Inserts;
    hide Numbered;
    hide SessionNumbered;
    if other == session {
      InsertionAdds(before.runs, after.runs, session, |counts|);
      EmptyRunJoins(before.steps, session, counts);
    } else {
      var n: nat :| n <= NUMBER_LIMIT && Numbered(before.runs, other, n);
      InsertionAdds(before.runs, after.runs, other, n);
    }
  }

  lemma {:induction false} StepAppended(before: Tables, after: Tables, session: string, counts: seq<nat>, other: string, run: nat)
    requires Follows(before, AppendStep(other, run), after) && Dashes(other) == Dashes(session)
    requires Holds(before, session, counts) && (other == session ==> 1 <= run <= |counts|)
    ensures Holds(after, session, if other == session && counts[run - 1] < NUMBER_LIMIT
                                  then counts[run - 1 := counts[run - 1] + 1] else counts)
  {
    hide Inserts;
    hide Numbered;
    hide SessionNumbered;
    if other == session {
      RunIsNumbered(before.steps, session, counts, run);
      InsertionAdds(before.steps, after.steps, ChildId(session, run), counts[run - 1]);
      SessionGrows(before.steps, session, counts, run);
    } else {
      OtherSessionsDoNotMatter(before.steps, after.steps, session, counts, other, run);
    }
  }

  /** After any history the runs and the steps of every session are numbered without gaps, as often as they were added. */
  lemma {:induction false} HistoryIsNumbered(tables: seq<Tables>, operations: seq<Operation>, level: nat, session: string)
    requires History(tables, operations) && WellFormed(operations, level) && Dashes(session) == level
    ensures Holds(tables[|operations|], session, Counts(operations, session))
    decreases |operations|
  {
    hide Holds;
    hide Follows;
    if operations == [] {
      EmptyTables(session);
    } else {
      var n := |operations| - 1;
      var earlier, operation := operations[..n], operations[n];
      HistoryPrefix(tables, operations, level);
      assert tables[..n + 1][n] == tables[n] && earlier[..n] == earlier;
      HistoryIsNumbered(tables[..n + 1], earlier, level, session);
      HistoryIsNumbered(tables[..n + 1], earlier, level, operation.session);
      assert Follows(tables[n], operation, tables[n + 1]);
      hide WellFormed;
      match operation
      case CreateRun(other) =>
        RunsAreNumbered(tables[n], other, Counts(earlier, other));
        RunCreated(tables[n], tables[n + 1], session, Counts(earlier, session), other);
      case AppendStep(other, run) =>
        StepAppended(tables[n], tables[n + 1], session, Counts(earlier, session), other, run);
    }
  }

  lemma {:induction false} EmptyTables(session: string)
    ensures Holds(Tables({}, {}), session, [])
  {
  }

  lemma {:induction false} RunsAreNumbered(tables: Tables, session: string, counts: seq<nat>)
    requires Holds(tables, session, counts)
    ensures exists n: nat :: n <= NUMBER_LIMIT && Numbered(tables.runs, session, n)
  {
  }

  lemma {:induction false} HistoryPrefix(tables: seq<Tables>, operations: seq<Operation>, level: nat)
    requires History(tables, operations) && WellFormed(operations, level) && operations != []
    ensures History(tables[..|operations|], operations[..|operations| - 1])
    ensures WellFormed(operations[..|operations| - 1], level)
    ensures var last := operations[|operations| - 1];
            && Dashes(last.session) == level
            && (last.AppendStep? ==> 1 <= last.run <= |Counts(operations[..|operations| - 1], last.session)|)
  {
    hide Follows;
    hide Counts;
    var earlier := operations[..|operations| - 1];
    assert forall i :: 0 <= i < |earlier| ==> earlier[..i] == operations[..i];
  }

  /** After any history, loading a session's steps by id yields its runs one after the other, each in append order. */
  lemma {:induction false} LoadedInRunOrder(tables: seq<Tables>, operations: seq<Operation>, level: nat, session: string,
                                            ordered: seq<string>)
    requires History(tables, operations) && WellFormed(operations, level) && Dashes(session) == level
    requires BelowLimit(Counts(operations, session))
    requires OrderedSelection(tables[|operations|].steps, session + "-", ordered)
    ensures ordered == SessionOrder(session, Counts(operations, session))
  {
    hide OrderedSelection;
    hide SessionOrder;
    HistoryIsNumbered(tables, operations, level, session);
    SessionOrderIsAppendOrder(tables[|operations|].steps, session, Counts(operations, session), ordered);
  }

  /** The ids given to the steps of a session, in the order of the appends. */
  function AppendedIds(operations: seq<Operation>, session: string): seq<string> {
    if operations == [] then []
    else
      var earlier := operations[..|operations| - 1];
      AppendedIds(earlier, session) +
      match operations[|operations| - 1]
      case CreateRun(_) => []
      case AppendStep(other, run) =>
        if other == session && 1 <= run <= |Counts(earlier, session)|
        then [ChildId(ChildId(session, run), Counts(earlier, session)[run - 1] + 1)] else []
  }

  /** Steps of the session are appended to its latest run only. */
  predicate AppendsToLatest(operations: seq<Operation>, session: string) {
    forall i :: 0 <= i < |operations| && operations[i].AppendStep? && operations[i].session == session ==>
                  operations[i].run == |Counts(operations[..i], session)|
  }

  lemma {:induction false} LastChild(session: string, counts: seq<nat>)
    requires counts != []
    ensures var n := |counts|;
            SessionOrder(session, counts[n - 1 := counts[n - 1] + 1]) ==
            SessionOrder(session, counts) + [ChildId(ChildId(session, n), counts[n - 1] + 1)]
    ensures SessionOrder(session, counts + [0]) == SessionOrder(session, counts)
  {
    var n := |counts|;
    var more := counts[n - 1 := counts[n - 1] + 1];
    assert more[..n - 1] == counts[..n - 1] && (counts + [0])[..n] == counts;
    hide ChildId;
    assert Children(ChildId(session, n), counts[n - 1] + 1) ==
           Children(ChildId(session, n), counts[n - 1]) + [ChildId(ChildId(session, n), counts[n - 1] + 1)];
    assert Children(ChildId(session, n + 1), 0) == [];
  }

  lemma {:induction false} CountsOnlyGrow(operations: seq<Operation>, session: string)
    requires operations != [] && BelowLimit(Counts(operations, session))
    ensures BelowLimit(Counts(operations[..|operations| - 1], session))
  {
    var earlier, counts := Counts(operations[..|operations| - 1], session), Counts(operations, session);
    assert forall i :: 0 <= i < |earlier| ==> earlier[i] <= counts[i];
  }

  lemma {:induction false} RunOrderIsTimeOrder(operations: seq<Operation>, session: string)
    requires AppendsToLatest(operations, session) && BelowLimit(Counts(operations, session))
    ensures AppendedIds(operations, session) == SessionOrder(session, Counts(operations, session))
  {
    if operations != [] {
      var n := |operations| - 1;
      var earlier := operations[..n];
      assert forall i :: 0 <= i < n ==> earlier[..i] == operations[..i];
      CountsOnlyGrow(operations, session);
      RunOrderIsTimeOrder(earlier, session);
      var counts := Counts(earlier, session);
      hide AppendsToLatest;
      hide SessionOrder;
      if counts != [] {
        LastChild(session, counts);
      } else {
        NoRunsNoSteps(session);
      }
      hide ChildId;
    }
  }

  lemma {:induction false} NoRunsNoSteps(session: string)
    ensures SessionOrder(session, []) == SessionOrder(session, [0]) == []
  {
    assert [0][..0] == [];
  }

  /** When steps go to the latest run only, loading a session by id yields its steps in the order they were appended. */
  lemma {:induction false} LoadedInAppendOrder(tables: seq<Tables>, operations: seq<Operation>, level: nat, session: string,
                                               ordered: seq<string>)
    requires History(tables, operations) && WellFormed(operations, level) && Dashes(session) == level
    requires AppendsToLatest(operations, session) && BelowLimit(Counts(operations, session))
    requires OrderedSelection(tables[|operations|].steps, session + "-", ordered)
    ensures ordered == AppendedIds(operations, session)
  {
    LoadedInRunOrder(tables, operations, level, session, ordered);
    RunOrderIsTimeOrder(operations, session);
  }
}
