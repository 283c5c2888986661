// Reviewed code changes: preparing a proposal, deciding on it, and applying it to the workspace's files.
module CodeChange {
  import opened Prelude
  import opened PathPolicy

  /** The names from the workspace root to a file: `a//b` and `a/./b` are the same file. */
  type FileKey = seq<string>

  /** The files of the workspace and their contents. */
  type Files = map<FileKey, string>

  datatype CodeChangePlan = CodeChangePlan(summary: string, items: seq<string>)

  datatype ProposedFileContent = ProposedFileContent(path: string, newContent: string)

  datatype ProposedFileChange = ProposedFileChange(path: WorkspaceRelativePath, originalContent: string, newContent: string)

  datatype PolicyDecision = Allow | Deny | Confirm

  datatype Proposal =
    Proposal(plan: CodeChangePlan, files: seq<ProposedFileChange>, policy: PolicyDecision, warnings: seq<string>)

  datatype ReviewStatus =
    | Pending
    | Rejected
    | ChangesRequested(feedback: string)
    | Approved
    | Applied
    | Conflict(paths: seq<string>)

  datatype CodeChangeError =
    | InvalidPath(path: string)
    | InvalidReviewState
    | PolicyDenied
    | Conflicts(paths: seq<string>)

  // Paths

  function NamesOf(components: seq<Component>): FileKey {
    if components == [] then []
    else (if components[0].Normal? then [components[0].name] else []) + NamesOf(components[1..])
  }

  /** What `WorkspaceRelativePath::parse` accepts. */
  predicate ValidPath(path: string) {
    path != "" && !IsAbsolute(path) && forall c <- Components(path) :: c.Normal?
  }

  /** A name alone is such a path. */
  function PlainPath(): (path: string)
    ensures ValidPath(path)
  {
    SplitOfPlain("a");
    assert ["a"][1..] == [];
    assert PieceComponents(["a"], true) == [Normal("a")];
    "a"
  }

  type WorkspaceRelativePath = path: string | ValidPath(path) witness PlainPath()

  /** Where `workspace_root.join(path)` leads: to the names of the path's normal form. */
  function KeyOf(path: WorkspaceRelativePath): (key: FileKey)
    ensures Normalize(path) == NormalPath(false, key)
  {
    NamesAreWalked(EmptyPath, Components(path));
    NamesOf(Components(path))
  }

  lemma {:induction false} NamesAreWalked(path: NormalPath, components: seq<Component>)
    requires forall i :: 0 <= i < |components| ==> components[i].Normal?
    ensures Walk(path, components) == path.(names := path.names + NamesOf(components))
    decreases |components|
  {
    if components != [] {
      NamesAreWalked(Push(path, components[0]), components[1..]);
    }
  }

  /** Two paths name one file exactly when they have one normal form. */
  lemma {:induction false} SameFileExactly(a: WorkspaceRelativePath, b: WorkspaceRelativePath)
    ensures KeyOf(a) == KeyOf(b) <==> Normalize(a) == Normalize(b)
  {
    hide Normalize;
    hide NamesOf;
  }

  predicate IsUpper(c: char) {
    'A' <= c <= 'Z'
  }

  /** `to_ascii_lowercase`. */
  function Lower(text: string): (lower: string)
    ensures |lower| == |text|
    ensures forall i :: 0 <= i < |text| ==> if IsUpper(text[i]) then lower[i] as int == text[i] as int + 32 else lower[i] == text[i]
  {
    seq(|text|, i requires 0 <= i < |text| =>
      if 'A' <= text[i] <= 'Z' then text[i] - 'A' + 'a' else text[i])
  }

  /** `Path::file_name`. */
  function FileName(path: string): string {
    var components := Components(path);
    if components != [] && components[|components| - 1].Normal? then components[|components| - 1].name else ""
  }

  predicate IsSensitiveName(name: string) {
    || name == ".env"
    || StartsWith(name, ".env.")
    || EndsWith(name, ".pem")
    || EndsWith(name, ".key")
    || Contains(name, "credentials")
  }

  predicate IsSensitivePath(path: string) {
    var lowercase := Lower(path);
    || IsSensitiveName(FileName(lowercase))
    || Contains(lowercase, "/.ssh/")
    || StartsWith(lowercase, ".ssh/")
    || Contains(lowercase, "/.aws/")
    || StartsWith(lowercase, ".aws/")
  }

  // Preparing

  predicate IsContentAt(files: Files, place: FileKey, content: string) {
    if place in files then content == files[place] else content == ""
  }

  /** The content at the path's normal form; a missing file is empty. */
  function ContentOf(files: Files, path: WorkspaceRelativePath): (content: string)
    ensures IsContentAt(files, Normalize(path).names, content)
  {
    if KeyOf(path) in files then files[KeyOf(path)] else ""
  }

  function PrepareFiles(files: Files, proposed: seq<ProposedFileContent>): Result<seq<ProposedFileChange>, CodeChangeError> {
    if proposed == [] then Ok([])
    else if !ValidPath(proposed[0].path) then Err(InvalidPath(proposed[0].path))
    else
      match PrepareFiles(files, proposed[1..])
      case Err(error) => Err(error)
      case Ok(rest) =>
        Ok([ProposedFileChange(proposed[0].path, ContentOf(files, proposed[0].path), proposed[0].newContent)] + rest)
  }

  /** The paths of sensitive files. */
  function SensitivePaths(changes: seq<ProposedFileChange>): seq<string> {
    if changes == [] then []
    else (if IsSensitivePath(changes[0].path) then [changes[0].path] else []) + SensitivePaths(changes[1..])
  }

  function Prepare(files: Files, plan: CodeChangePlan, proposed: seq<ProposedFileContent>): Result<Proposal, CodeChangeError> {
    match PrepareFiles(files, proposed)
    case Err(error) => Err(error)
    case Ok(changes) =>
      var warnings := SensitivePaths(changes);
      Ok(Proposal(plan, changes, if warnings == [] then Confirm else PolicyDecision.Deny, warnings))
  }

  // Applying

  /** The listed paths whose content is no longer the recorded original. */
  function ConflictsOf(files: Files, changes: seq<ProposedFileChange>): seq<string> {
    if changes == [] then []
    else
      (if ContentOf(files, changes[0].path) != changes[0].originalContent then [changes[0].path] else [])
      + ConflictsOf(files, changes[1..])
  }

  function Written(files: Files, changes: seq<ProposedFileChange>): Files {
    if changes == [] then files
    else
      var last := changes[|changes| - 1];
      Written(files, changes[..|changes| - 1])[KeyOf(last.path) := last.newContent]
  }

  class Workspace {
    var files: Files
  }

  class CodeChangeReview {
    const proposal: Proposal
    var status: ReviewStatus

    constructor (proposal: Proposal)
      ensures this.proposal == proposal && status == Pending
    {
      this.proposal := proposal;
      status := Pending;
    }

    method Approve() returns (result: Result<(), CodeChangeError>)
      modifies `status
      ensures (result, status) == AfterApprove(proposal, old(status))
      ensures result.Ok? <==> old(status) == Pending && proposal.policy != PolicyDecision.Deny
      ensures result == Err(InvalidReviewState) <==> old(status) != Pending
      ensures result.Ok? <==> status == Approved && old(status) != Approved
      ensures result.Err? ==> status == old(status)
    {
      if status != Pending {
        return Err(InvalidReviewState);
      }
      if proposal.policy == PolicyDecision.Deny {
        return Err(PolicyDenied);
      }
      status := Approved;
      return Ok(());
    }

    method Reject() returns (result: Result<(), CodeChangeError>)
      modifies `status
      ensures (result, status) == Decided(old(status), Rejected)
      ensures result.Ok? <==> old(status) == Pending
      ensures result.Ok? ==> Refused(status)
      ensures result.Err? ==> status == old(status)
    {
      if status != Pending {
        return Err(InvalidReviewState);
      }
      status := Rejected;
      return Ok(());
    }

    method RequestChanges(feedback: string) returns (result: Result<(), CodeChangeError>)
      modifies `status
      ensures (result, status) == Decided(old(status), ChangesRequested(feedback))
      ensures result.Ok? <==> old(status) == Pending
      ensures result.Ok? ==> Refused(status)
      ensures result.Err? ==> status == old(status)
    {
      if status != Pending {
        return Err(InvalidReviewState);
      }
      status := ChangesRequested(feedback);
      return Ok(());
    }

    method Apply(workspace: Workspace) returns (result: Result<(), CodeChangeError>)
      modifies `status, workspace
      ensures (result, status, workspace.files) == AfterApply(proposal, old(status), old(workspace.files))
      ensures result.Ok? <==> old(status) == Approved && MatchesOriginals(old(workspace.files), proposal.files)
      ensures if result.Ok? then WritesExactly(old(workspace.files), workspace.files, proposal.files)
              else workspace.files == old(workspace.files)
    {
      NoConflicts(workspace.files, proposal.files);
      WrittenMeaning(workspace.files, proposal.files);
      hide MatchesOriginals;
      hide WritesExactly;
      hide KeyOf;
      hide Normalize;
      hide ConflictsOf;
      hide ValidPath;
      hide Written;
      hide IsContentAt;
      if status != Approved {
        return Err(InvalidReviewState);
      }
      var conflicts := ConflictsOf(workspace.files, proposal.files);
      if conflicts != [] {
        status := Conflict(conflicts);
        return Err(Conflicts(conflicts));
      }
      ghost var before, changes := workspace.files, proposal.files;
      WrittenNothing(before, changes);
      for i := 0 to |proposal.files|
        invariant workspace.files == Written(before, changes[..i])
        invariant status == Approved
      {
        var file := proposal.files[i];
        WrittenSnoc(before, changes, i);
        workspace.files := workspace.files[KeyOf(file.path) := file.newContent];
      }
      assert changes[..|changes|] == changes;
      status := Applied;
      return Ok(());
    }
  }

  function AfterApprove(proposal: Proposal, status: ReviewStatus): (Result<(), CodeChangeError>, ReviewStatus) {
    if status != Pending then (Err(InvalidReviewState), status)
    else if proposal.policy == PolicyDecision.Deny then (Err(PolicyDenied), status)
    else (Ok(()), Approved)
  }

  function Decided(status: ReviewStatus, decision: ReviewStatus): (Result<(), CodeChangeError>, ReviewStatus) {
    if status != Pending then (Err(InvalidReviewState), status) else (Ok(()), decision)
  }

  /** All the files are checked before any is written. */
  function AfterApply(proposal: Proposal, status: ReviewStatus, files: Files): (Result<(), CodeChangeError>, ReviewStatus, Files) {
    if status != Approved then (Err(InvalidReviewState), status, files)
    else
      var conflicts := ConflictsOf(files, proposal.files);
      if conflicts != [] then (Err(Conflicts(conflicts)), Conflict(conflicts), files)
      else (Ok(()), Applied, Written(files, proposal.files))
  }

  lemma {:induction false} WrittenNothing(files: Files, changes: seq<ProposedFileChange>)
    ensures Written(files, changes[..0]) == files
  {
  }

  lemma {:induction false} WrittenSnoc(files: Files, changes: seq<ProposedFileChange>, i: nat)
    requires i < |changes|
    ensures Written(files, changes[..i + 1]) == Written(files, changes[..i])[KeyOf(changes[i].path) := changes[i].newContent]
  {
    hide KeyOf;
    hide ValidPath;
    assert changes[..i + 1][..i] == changes[..i];
  }

  // What checking and writing mean

  /** Every listed file has the content recorded when the change was prepared. */
  predicate MatchesOriginals(files: Files, changes: seq<ProposedFileChange>) {
    forall i :: 0 <= i < |changes| ==> IsContentAt(files, Normalize(changes[i].path).names, changes[i].originalContent)
  }

  lemma {:induction false} NoConflicts(files: Files, changes: seq<ProposedFileChange>)
    ensures ConflictsOf(files, changes) == [] <==> MatchesOriginals(files, changes)
  {
    hide ContentOf;
    hide Normalize;
    if changes != [] {
      NoConflicts(files, changes[1..]);
      assert forall i :: 1 <= i < |changes| ==> changes[i] == changes[1..][i - 1];
    }
  }

  /** Every path in a conflict is that of a listed file that has changed. */
  lemma {:induction false} ConflictsHaveChanged(files: Files, changes: seq<ProposedFileChange>, k: nat) returns (i: nat)
    requires k < |ConflictsOf(files, changes)|
    ensures i < |changes| && changes[i].path == ConflictsOf(files, changes)[k]
    ensures !IsContentAt(files, Normalize(changes[i].path).names, changes[i].originalContent)
  {
    hide Normalize;
    hide ValidPath;
    hide ContentOf;
    var rest := ConflictsOf(files, changes[1..]);
    var first := |ConflictsOf(files, changes)| - |rest|;
    if k < first {
      i := 0;
    } else {
      i := ConflictsHaveChanged(files, changes[1..], k - first);
      i := i + 1;
    }
  }

  /** Change `i` is the last one to name its file. */
  predicate IsLastFor(changes: seq<ProposedFileChange>, i: nat, key: FileKey) {
    && i < |changes|
    && Normalize(changes[i].path).names == key
    && forall j :: i < j < |changes| ==> Normalize(changes[j].path).names != key
  }

  /** Each listed file has its last listed content, and every other file is as before. */
  ghost predicate WritesExactly(before: Files, after: Files, changes: seq<ProposedFileChange>) {
    && (forall i: nat, key :: IsLastFor(changes, i, key) ==> key in after && after[key] == changes[i].newContent)
    && (forall key :: (forall i :: 0 <= i < |changes| ==> Normalize(changes[i].path).names != key) ==>
          (key in after <==> key in before) && (key in before ==> after[key] == before[key]))
  }

  lemma {:induction false} WrittenMeaning(files: Files, changes: seq<ProposedFileChange>)
    ensures WritesExactly(files, Written(files, changes), changes)
  {
    hide WritesExactly;
    hide KeyOf;
    hide ValidPath;
    if changes == [] {
      NothingIsWritten(files);
    } else {
      var n := |changes| - 1;
      WrittenMeaning(files, changes[..n]);
      WriteOneMore(files, Written(files, changes[..n]), changes);
    }
  }

  lemma {:induction false} NothingIsWritten(files: Files)
    ensures WritesExactly(files, files, [])
  {
  }

  /** The last change is written over what the others have written. */
  lemma {:induction false} WriteOneMore(files: Files, written: Files, changes: seq<ProposedFileChange>)
    requires changes != [] && WritesExactly(files, written, changes[..|changes| - 1])
    ensures var last := changes[|changes| - 1];
            WritesExactly(files, written[KeyOf(last.path) := last.newContent], changes)
  {
    hide NamesOf;
    hide Normalize;
    hide ValidPath;
    var n := |changes| - 1;
    var less, last := changes[..n], changes[n];
    var after := written[KeyOf(last.path) := last.newContent];
    assert KeyOf(last.path) == Normalize(last.path).names;
    forall i: nat, key | IsLastFor(changes, i, key)
      ensures key in after && after[key] == changes[i].newContent
    {
      if i < n {
        LastOfFewer(changes, i, key);
      }
    }
    forall key | forall i :: 0 <= i < |changes| ==> Normalize(changes[i].path).names != key
      ensures (key in after <==> key in files) && (key in files ==> after[key] == files[key])
    {
      assert forall i :: 0 <= i < n ==> Normalize(less[i].path).names == Normalize(changes[i].path).names;
    }
  }

  lemma {:induction false} LastOfFewer(changes: seq<ProposedFileChange>, i: nat, key: FileKey)
    requires i < |changes| - 1 && IsLastFor(changes, i, key)
    ensures IsLastFor(changes[..|changes| - 1], i, key) && Normalize(changes[|changes| - 1].path).names != key
  {
  }

  // Histories

  datatype Operation =
    | ApproveReview
    | RejectReview
    | RequestReviewChanges(feedback: string)
    | ApplyReview
    | EditOutside(files: Files)

  datatype World = World(status: ReviewStatus, files: Files)

  function Step(proposal: Proposal, world: World, operation: Operation): World {
    match operation
    case ApproveReview => world.(status := AfterApprove(proposal, world.status).1)
    case RejectReview => world.(status := Decided(world.status, Rejected).1)
    case RequestReviewChanges(feedback) => world.(status := Decided(world.status, ChangesRequested(feedback)).1)
    case ApplyReview =>
      var after := AfterApply(proposal, world.status, world.files);
      World(after.1, after.2)
    case EditOutside(files) => world.(files := files)
  }

  /** The world after the first `n` operations. */
  function Run(proposal: Proposal, start: Files, operations: seq<Operation>, n: nat): World
    requires n <= |operations|
  {
    if n == 0 then World(Pending, start)
    else Step(proposal, Run(proposal, start, operations, n - 1), operations[n - 1])
  }

  /** Operation `n` applies the review successfully. */
  predicate Applies(proposal: Proposal, start: Files, operations: seq<Operation>, n: nat) {
    && n < |operations|
    && operations[n] == ApplyReview
    && AfterApply(proposal, Run(proposal, start, operations, n).status, Run(proposal, start, operations, n).files).0.Ok?
  }

  function Stage(status: ReviewStatus): nat {
    if status == Pending then 0 else if status == Approved then 1 else 2
  }

  lemma {:induction false} StepAdvances(proposal: Proposal, world: World, operation: Operation)
    ensures Stage(world.status) <= Stage(Step(proposal, world, operation).status)
  {
    hide ConflictsOf;
    hide Written;
  }

  lemma {:induction false} StagesOnlyAdvance(proposal: Proposal, start: Files, operations: seq<Operation>, m: nat, n: nat)
    requires m <= n <= |operations|
    ensures Stage(Run(proposal, start, operations, m).status) <= Stage(Run(proposal, start, operations, n).status)
    decreases n
  {
    if m < n {
      StagesOnlyAdvance(proposal, start, operations, m, n - 1);
      StepAdvances(proposal, Run(proposal, start, operations, n - 1), operations[n - 1]);
      hide Step;
      hide Stage;
    }
  }

  lemma {:induction false} ApprovedByApproval(proposal: Proposal, start: Files, operations: seq<Operation>, n: nat)
    returns (k: nat)
    requires n <= |operations| && Run(proposal, start, operations, n).status == Approved
    ensures k < n && operations[k] == ApproveReview && Run(proposal, start, operations, k).status == Pending
    ensures proposal.policy != PolicyDecision.Deny
  {
    hide ConflictsOf;
    hide Written;
    if Run(proposal, start, operations, n - 1).status == Approved {
      k := ApprovedByApproval(proposal, start, operations, n - 1);
    } else {
      k := n - 1;
    }
  }

  /** The review is over without a write. */
  predicate Refused(status: ReviewStatus) {
    status == Rejected || status.ChangesRequested?
  }

  /** Operation `n` is a decision, and it is accepted. */
  predicate Decides(proposal: Proposal, start: Files, operations: seq<Operation>, n: nat) {
    n < |operations| &&
    var status := Run(proposal, start, operations, n).status;
    match operations[n]
    case ApproveReview => AfterApprove(proposal, status).0.Ok?
    case RejectReview => Decided(status, Rejected).0.Ok?
    case RequestReviewChanges(feedback) => Decided(status, ChangesRequested(feedback)).0.Ok?
    case _ => false
  }

  /** However the calls are ordered, at most one decision is ever accepted. */
  lemma {:induction false} OneDecision(proposal: Proposal, start: Files, operations: seq<Operation>, m: nat, n: nat)
    requires Decides(proposal, start, operations, m) && Decides(proposal, start, operations, n)
    ensures m == n
  {
    hide ConflictsOf;
    hide Written;
    var first, second := Min(m, n), Max(m, n);
    assert Stage(Run(proposal, start, operations, first + 1).status) > 0;
    if m != n {
      StagesOnlyAdvance(proposal, start, operations, first + 1, second);
    }
  }

  /** A refusal is final: the status stays and nothing is applied any more. */
  lemma {:induction false} RefusalIsFinal(proposal: Proposal, start: Files, operations: seq<Operation>, m: nat, n: nat)
    requires m <= n <= |operations| && Refused(Run(proposal, start, operations, m).status)
    ensures Run(proposal, start, operations, n).status == Run(proposal, start, operations, m).status
    ensures !Applies(proposal, start, operations, n)
    decreases n
  {
    if m < n {
      RefusalIsFinal(proposal, start, operations, m, n - 1);
    }
    hide ConflictsOf;
    hide Written;
  }

  /** However the calls are ordered and whatever is edited between them, a review writes at most once; only after an
      approval while it was pending and not denied; and only if every listed file then equals its recorded original.
      Each listed file gets its last listed content and no other file changes. */
  lemma {:induction false} WritesAtMostOnceAfterApproval(proposal: Proposal, start: Files, operations: seq<Operation>, n: nat)
    returns (approval: nat)
    requires Applies(proposal, start, operations, n)
    ensures forall m: nat :: Applies(proposal, start, operations, m) ==> m == n
    ensures approval < n && operations[approval] == ApproveReview
    ensures Run(proposal, start, operations, approval).status == Pending && proposal.policy != PolicyDecision.Deny
    ensures var before, after := Run(proposal, start, operations, n).files, Run(proposal, start, operations, n + 1).files;
            MatchesOriginals(before, proposal.files) && WritesExactly(before, after, proposal.files)
  {
    hide ContentOf;
    var before := Run(proposal, start, operations, n);
    approval := ApprovedByApproval(proposal, start, operations, n);
    NoConflicts(before.files, proposal.files);
    WrittenMeaning(before.files, proposal.files);
    hide ConflictsOf;
    hide Written;
    hide WritesExactly;
    hide MatchesOriginals;
    assert Run(proposal, start, operations, n + 1) == Step(proposal, before, ApplyReview);
    forall m: nat | Applies(proposal, start, operations, m)
      ensures m == n
    {
      AppliesOnce(proposal, start, operations, m, n);
    }
  }

  lemma {:induction false} AppliesOnce(proposal: Proposal, start: Files, operations: seq<Operation>, m: nat, n: nat)
    requires Applies(proposal, start, operations, m) && Applies(proposal, start, operations, n)
    ensures m == n
  {
    hide ConflictsOf;
    hide Written;
    var first, second := Min(m, n), Max(m, n);
    assert Stage(Run(proposal, start, operations, first + 1).status) == 2;
    if m != n {
      StagesOnlyAdvance(proposal, start, operations, first + 1, second);
    }
  }

  /** Nothing but a successful application, and edits from outside, changes a file. */
  lemma {:induction false} OtherCallsWriteNothing(proposal: Proposal, start: Files, operations: seq<Operation>, n: nat)
    requires n < |operations| && !operations[n].EditOutside? && !Applies(proposal, start, operations, n)
    ensures Run(proposal, start, operations, n + 1).files == Run(proposal, start, operations, n).files
  {
    hide ConflictsOf;
    hide Written;
  }

  /** An approved review applies exactly when nothing it lists has changed; otherwise it is closed as a conflict. */
  lemma {:induction false} AppliesUnlessChanged(proposal: Proposal, start: Files, operations: seq<Operation>, n: nat)
    requires n < |operations| && operations[n] == ApplyReview
    requires Run(proposal, start, operations, n).status == Approved
    ensures var before, after := Run(proposal, start, operations, n), Run(proposal, start, operations, n + 1);
            if MatchesOriginals(before.files, proposal.files) then
              Applies(proposal, start, operations, n) && after.status == Applied
            else
              !Applies(proposal, start, operations, n) && after.status.Conflict? && after.files == before.files
  {
    NoConflicts(Run(proposal, start, operations, n).files, proposal.files);
    hide ConflictsOf;
    hide Written;
    hide MatchesOriginals;
  }

  // Sensitive files

  /** `name` is a piece of the path before a separator. */
  predicate HasDirectory(pieces: seq<string>, name: string) {
    exists i :: 0 <= i < |pieces| - 1 && pieces[i] == name
  }

  lemma {:induction false} FirstSeparator(text: string) returns (first: string, rest: string)
    requires |Split(text)| > 1
    ensures text == first + "/" + rest && Split(text) == [first] + Split(rest)
  {
    if text[0] == '/' {
      first, rest := "", text[1..];
    } else {
      first, rest := FirstSeparator(text[1..]);
      first := [text[0]] + first;
    }
  }

  lemma {:induction false} DirectoryBetween(before: string, name: string, after: string)
    requires '/' !in name
    ensures HasDirectory(Split(before + "/" + (name + "/" + after)), name)
  {
    SplitAtSeparator(before, name + "/" + after);
    SplitAtSeparator(name, after);
    SplitOfPlain(name);
    hide Split;
    var pieces := Split(before) + ([name] + Split(after));
    assert pieces[|Split(before)|] == name;
  }

  lemma {:induction false} DirectoryFromText(text: string, name: string, j: nat)
    requires '/' !in name && j <= |text| && "/" + name + "/" <= text[j..]
    ensures HasDirectory(Split(text), name)
  {
    hide Split;
    hide HasDirectory;
    var part, before, after := "/" + name + "/", text[..j], text[j..][|name| + 2..];
    DirectoryBetween(before, name, after);
    assert text[j..] == part + after;
    assert part + after == "/" + (name + "/" + after);
    assert text == before + text[j..];
    assert before + ("/" + (name + "/" + after)) == before + "/" + (name + "/" + after);
  }

  lemma {:induction false} DirectoryInText(text: string, name: string, i: nat)
    requires i < |Split(text)| - 1 && Split(text)[i] == name
    ensures Contains(text, "/" + name + "/") || StartsWith(text, name + "/")
    decreases i
  {
    var first, rest := FirstSeparator(text);
    hide Split;
    if i > 0 {
      DirectoryInText(rest, name, i - 1);
      if Contains(rest, "/" + name + "/") {
        var j :| 0 <= j <= |rest| && "/" + name + "/" <= rest[j..];
        assert text[|first| + 1 + j..] == rest[j..];
      } else {
        assert text[|first|..] == "/" + rest;
      }
    }
  }

  /** The textual test finds a directory of that name, and nothing else. */
  lemma {:induction false} DirectoryTest(text: string, name: string)
    requires '/' !in name
    ensures Contains(text, "/" + name + "/") || StartsWith(text, name + "/") <==> HasDirectory(Split(text), name)
  {
    if Contains(text, "/" + name + "/") {
      var j :| 0 <= j <= |text| && "/" + name + "/" <= text[j..];
      DirectoryFromText(text, name, j);
    } else if StartsWith(text, name + "/") {
      var after := text[|name| + 1..];
      assert text == name + "/" + after;
      SplitAtSeparator(name, after);
      SplitOfPlain(name);
      hide Split;
      assert Split(text)[0] == name;
    } else if HasDirectory(Split(text), name) {
      var i :| 0 <= i < |Split(text)| - 1 && Split(text)[i] == name;
      DirectoryInText(text, name, i);
    }
  }

  /** A path is sensitive exactly when, ignoring ASCII case, its file name is sensitive or a piece before a separator
      is ".ssh" or ".aws". */
  lemma {:induction false} SensitivePathMeaning(path: string)
    ensures IsSensitivePath(path) <==>
            || IsSensitiveName(FileName(Lower(path)))
            || HasDirectory(Split(Lower(path)), ".ssh")
            || HasDirectory(Split(Lower(path)), ".aws")
  {
    hide IsSensitiveName;
    hide FileName;
    hide Split;
    hide Lower;
    hide Contains;
    hide HasDirectory;
    assert "/" + ".ssh" + "/" == "/.ssh/" && "/" + ".aws" + "/" == "/.aws/";
    assert ".ssh" + "/" == ".ssh/" && ".aws" + "/" == ".aws/";
    DirectoryTest(Lower(path), ".ssh");
    DirectoryTest(Lower(path), ".aws");
  }

  /** The names that are kept out, by what they are made of. */
  lemma {:induction false} SensitiveNameMeaning(name: string)
    ensures IsSensitiveName(name) <==>
            || name == ".env"
            || (exists rest: string :: name == ".env." + rest)
            || (exists stem: string :: name == stem + ".pem")
            || (exists stem: string :: name == stem + ".key")
            || (exists before: string, after: string :: name == before + "credentials" + after)
  {
    StartsWithMeaning(name, ".env.");
    EndsWithMeaning(name, ".pem");
    EndsWithMeaning(name, ".key");
    ContainsMeaning(name, "credentials");
    hide StartsWith;
    hide EndsWith;
    hide Contains;
  }

  /** The texts differ at most in the case of ASCII letters. */
  predicate SameButCase(a: string, b: string) {
    |a| == |b| && forall i :: 0 <= i < |a| ==>
      || a[i] == b[i]
      || (IsUpper(a[i]) && b[i] as int == a[i] as int + 32)
      || (IsUpper(b[i]) && a[i] as int == b[i] as int + 32)
  }

  /** No change of case hides a path or makes it sensitive. */
  lemma {:induction false} CaseDoesNotMatter(a: string, b: string)
    requires SameButCase(a, b)
    ensures IsSensitivePath(a) <==> IsSensitivePath(b)
  {
    assert Lower(a) == Lower(b);
    hide Lower;
  }

  function LowerAll(names: seq<string>): (lower: seq<string>)
    ensures |lower| == |names|
  {
    seq(|names|, i requires 0 <= i < |names| => Lower(names[i]))
  }

  lemma {:induction false} LowerFirst(c: char, pieces: seq<string>)
    requires pieces != []
    ensures LowerAll([""] + pieces) == [""] + LowerAll(pieces)
    ensures LowerAll([[c] + pieces[0]] + pieces[1..]) == [Lower([c]) + LowerAll(pieces)[0]] + LowerAll(pieces)[1..]
  {
    assert Lower("") == "";
    assert Lower([c] + pieces[0]) == Lower([c]) + Lower(pieces[0]);
    hide Lower;
  }

  lemma {:induction false} SplitLower(text: string)
    ensures Split(Lower(text)) == LowerAll(Split(text))
  {
    if text == "" {
      assert Lower("") == "" && LowerAll([""]) == [""];
    } else {
      var rest := Split(text[1..]);
      assert Lower(text)[1..] == Lower(text[1..]);
      SplitLower(text[1..]);
      SplitStep(text);
      SplitStep(Lower(text));
      LowerFirst(text[0], rest);
      assert Lower([text[0]]) == [Lower(text)[0]];
      hide Split;
      hide LowerAll;
    }
  }

  lemma {:induction false} LowerKeepsDots(piece: string)
    ensures Lower(piece) == piece || (piece != "" && piece != "." && piece != "..")
    ensures (piece == "" <==> Lower(piece) == "") && (piece == "." <==> Lower(piece) == ".")
    ensures piece == ".." <==> Lower(piece) == ".."
  {
    if |piece| == 1 || |piece| == 2 {
      assert Lower(piece)[0] == '.' <==> piece[0] == '.';
    }
    if |piece| == 2 {
      assert Lower(piece)[1] == '.' <==> piece[1] == '.';
    }
  }

  /** Lower case changes the names of a path and nothing else. */
  lemma {:induction false} NamesLower(pieces: seq<string>, leading: bool)
    ensures var lower, kept := PieceComponents(LowerAll(pieces), leading), PieceComponents(pieces, leading);
            && |lower| == |kept|
            && forall i :: 0 <= i < |kept| ==>
                 lower[i] == (if kept[i].Normal? then Normal(Lower(kept[i].name)) else kept[i])
  {
    if pieces != [] {
      NamesLower(pieces[1..], false);
      LowerKeepsDots(pieces[0]);
      assert LowerAll(pieces)[1..] == LowerAll(pieces[1..]);
      hide Lower;
    }
  }

  lemma {:induction false} NamesOfNormal(components: seq<Component>)
    requires forall i :: 0 <= i < |components| ==> components[i].Normal?
    ensures |NamesOf(components)| == |components|
    ensures forall i :: 0 <= i < |components| ==> NamesOf(components)[i] == components[i].name
  {
    if components != [] {
      NamesOfNormal(components[1..]);
    }
  }

  /** A name before the last one comes from a piece before a separator. */
  lemma {:induction false} NameIsPiece(pieces: seq<string>, leading: bool, i: nat) returns (j: nat)
    requires i < |PieceComponents(pieces, leading)| && PieceComponents(pieces, leading)[i].Normal?
    ensures j < |pieces| && pieces[j] == PieceComponents(pieces, leading)[i].name
    ensures i < |PieceComponents(pieces, leading)| - 1 ==> j < |pieces| - 1
  {
    var first := PieceComponent(pieces[0], leading);
    if i < |first| {
      j := 0;
      if |pieces| == 1 {
        assert pieces[1..] == [];
      }
    } else {
      j := NameIsPiece(pieces[1..], false, i - |first|);
      j := j + 1;
    }
  }

  /** Ignoring case, a file with a sensitive name or below a directory for keys. */
  predicate IsSensitiveKey(key: FileKey) {
    && key != []
    && (|| IsSensitiveName(Lower(key[|key| - 1]))
        || exists i :: 0 <= i < |key| - 1 && Lower(key[i]) in {".ssh", ".aws"})
  }

  /** The names of a valid path: its file name last, the others before separators. */
  lemma {:induction false} KeyNames(path: WorkspaceRelativePath)
    ensures KeyOf(path) != [] ==> FileName(Lower(path)) == Lower(KeyOf(path)[|KeyOf(path)| - 1])
    ensures forall i :: 0 <= i < |KeyOf(path)| - 1 ==> Lower(KeyOf(path)[i]) in LowerAll(Split(path))[..|Split(path)| - 1]
  {
    var components, pieces := Components(path), Split(path);
    NamesOfNormal(components);
    SplitLower(path);
    NamesLower(pieces, true);
    assert IsAbsolute(Lower(path)) == IsAbsolute(path);
    assert Components(Lower(path)) == PieceComponents(LowerAll(pieces), true);
    hide Split;
    hide Lower;
    hide PieceComponents;
    hide NamesOf;
    forall i | 0 <= i < |KeyOf(path)| - 1
      ensures Lower(KeyOf(path)[i]) in LowerAll(pieces)[..|pieces| - 1]
    {
      var j := NameIsPiece(pieces, true, i);
      assert LowerAll(pieces)[..|pieces| - 1][j] == Lower(pieces[j]);
    }
  }

  /** A directory of the key is a directory of the text. */
  lemma {:induction false} KeyDirectory(key: FileKey, pieces: seq<string>, name: string, i: nat)
    requires pieces != [] && i < |key| - 1 && Lower(key[i]) == name && name in pieces[..|pieces| - 1]
    ensures HasDirectory(pieces, name)
  {
    var j :| 0 <= j < |pieces| - 1 && pieces[j] == name;
  }

  /** However the path is spelled, a sensitive file is recognised. */
  lemma {:induction false} SensitiveFilesAreRecognised(path: string)
    requires ValidPath(path) && IsSensitiveKey(Normalize(path).names)
    ensures IsSensitivePath(path)
  {
    var key, pieces := KeyOf(path), Split(Lower(path));
    KeyNames(path);
    SplitLower(path);
    SensitivePathMeaning(path);
    hide IsSensitivePath;
    hide IsSensitiveName;
    hide Split;
    hide Lower;
    hide LowerAll;
    hide KeyOf;
    hide FileName;
    hide ValidPath;
    hide HasDirectory;
    if !IsSensitiveName(Lower(key[|key| - 1])) {
      var i :| 0 <= i < |key| - 1 && Lower(key[i]) in {".ssh", ".aws"};
      KeyDirectory(key, pieces, Lower(key[i]), i);
    }
  }

  lemma {:induction false} NoSensitivePaths(changes: seq<ProposedFileChange>)
    ensures SensitivePaths(changes) == [] <==> forall i :: 0 <= i < |changes| ==> !IsSensitivePath(changes[i].path)
  {
    hide IsSensitivePath;
    if changes != [] {
      NoSensitivePaths(changes[1..]);
      assert forall i :: 1 <= i < |changes| ==> changes[i] == changes[1..][i - 1];
    }
  }

  /** A proposal lists every change with the content its file had, and fails when a path is not made of names. */
  lemma {:induction false} PreparedFiles(files: Files, proposed: seq<ProposedFileContent>)
    ensures PrepareFiles(files, proposed).Ok? <==> forall i :: 0 <= i < |proposed| ==> ValidPath(proposed[i].path)
    ensures PrepareFiles(files, proposed).Ok? ==>
              var changes := PrepareFiles(files, proposed).value;
              && |changes| == |proposed|
              && MatchesOriginals(files, changes)
              && forall i :: 0 <= i < |proposed| ==>
                   changes[i].path == proposed[i].path && changes[i].newContent == proposed[i].newContent
  {
    hide ValidPath;
    hide ContentOf;
    hide IsContentAt;
    hide Normalize;
    if proposed != [] {
      PreparedFiles(files, proposed[1..]);
      assert forall i :: 1 <= i < |proposed| ==> proposed[i] == proposed[1..][i - 1];
      if PrepareFiles(files, proposed).Ok? {
        var rest := PrepareFiles(files, proposed[1..]).value;
        assert forall i :: 1 <= i < |proposed| ==> PrepareFiles(files, proposed).value[i] == rest[i - 1];
      }
    }
  }

  /** A prepared proposal that lists a sensitive file is never applied, whatever is called. */
  lemma {:induction false} SensitiveFilesAreNeverWritten(prepared: Files, plan: CodeChangePlan, proposed: seq<ProposedFileContent>,
                                                         start: Files, operations: seq<Operation>, n: nat, i: nat)
    requires Prepare(prepared, plan, proposed).Ok?
    requires i < |proposed| && IsSensitiveKey(Normalize(proposed[i].path).names)
    ensures !Applies(Prepare(prepared, plan, proposed).value, start, operations, n)
  {
    var proposal := Prepare(prepared, plan, proposed).value;
    PreparedFiles(prepared, proposed);
    SensitiveFilesAreRecognised(proposed[i].path);
    NoSensitivePaths(proposal.files);
    assert proposal.policy == PolicyDecision.Deny;
    hide IsSensitiveKey;
    hide ConflictsOf;
    hide Run;
    if Applies(proposal, start, operations, n) {
      var approval := ApprovedByApproval(proposal, start, operations, n);
      assert false;
    }
  }

  /** Without edits in between, what is prepared, approved and applied is written. */
  lemma {:induction false} PreparedChangesApply(files: Files, plan: CodeChangePlan, proposed: seq<ProposedFileContent>)
    requires Prepare(files, plan, proposed).Ok? && Prepare(files, plan, proposed).value.policy == Confirm
    ensures var proposal := Prepare(files, plan, proposed).value;
            var end := Run(proposal, files, [ApproveReview, ApplyReview], 2);
            end.status == Applied && WritesExactly(files, end.files, proposal.files)
  {
    var proposal := Prepare(files, plan, proposed).value;
    PreparedFiles(files, proposed);
    NoConflicts(files, proposal.files);
    WrittenMeaning(files, proposal.files);
    hide WritesExactly;
    hide ConflictsOf;
    hide Written;
    hide Prepare;
    hide MatchesOriginals;
    var operations := [ApproveReview, ApplyReview];
    assert Run(proposal, files, operations, 0) == World(Pending, files);
    assert Run(proposal, files, operations, 1) == World(Approved, files);
  }
}
