// Filesystem policy: ordered rules over normalised paths.
module PathPolicy {
  import opened Prelude
  import opened Glob

  // Paths as text

  datatype Component = RootDir | CurDir | ParentDir | Normal(name: string)

  /** A path without `.` and `..`, as its component list. */
  datatype NormalPath = NormalPath(absolute: bool, names: seq<string>)

  predicate IsAbsolute(path: string) {
    path != "" && path[0] == '/'
  }

  /** The pieces between separators. */
  function Split(text: string): (pieces: seq<string>)
    ensures |pieces| > 0
  {
    if text == "" then [""]
    else if text[0] == '/' then [""] + Split(text[1..])
    else
      var rest := Split(text[1..]);
      [[text[0]] + rest[0]] + rest[1..]
  }

  /** `.` is a component only at the very start of a relative path. */
  function PieceComponent(piece: string, leading: bool): seq<Component> {
    if piece == "" then []
    else if piece == "." then (if leading then [CurDir] else [])
    else if piece == ".." then [ParentDir]
    else [Normal(piece)]
  }

  function PieceComponents(pieces: seq<string>, leading: bool): seq<Component> {
    if pieces == [] then []
    else PieceComponent(pieces[0], leading) + PieceComponents(pieces[1..], false)
  }

  /** `Path::components`. */
  function Components(path: string): seq<Component> {
    if IsAbsolute(path) then [RootDir] + PieceComponents(Split(path), false)
    else PieceComponents(Split(path), true)
  }

  /** `Path::join`. */
  function Join(base: string, path: string): string {
    if IsAbsolute(path) then path
    else if base == "" || base[|base| - 1] == '/' then base + path
    else base + "/" + path
  }

  function Push(path: NormalPath, c: Component): NormalPath {
    match c
    case CurDir => path
    case ParentDir => if path.names == [] then path else path.(names := path.names[..|path.names| - 1])
    case Normal(name) => path.(names := path.names + [name])
    case RootDir => NormalPath(true, [])
  }

  function Walk(path: NormalPath, components: seq<Component>): NormalPath
    decreases |components|
  {
    if components == [] then path else Walk(Push(path, components[0]), components[1..])
  }

  const EmptyPath := NormalPath(false, [])

  function Normalize(path: string): NormalPath {
    Walk(EmptyPath, Components(path))
  }

  method NormalizePath(path: string) returns (normalized: NormalPath)
    ensures normalized == Normalize(path)
  {
    normalized := EmptyPath;
    var components := Components(path);
    for i := 0 to |components|
      invariant Walk(normalized, components[i..]) == Normalize(path)
    {
      assert components[i..][1..] == components[i + 1..];
      match components[i] {
        case CurDir =>
        case ParentDir =>
          if normalized.names != [] {
            normalized := normalized.(names := normalized.names[..|normalized.names| - 1]);
          }
        case Normal(name) => normalized := normalized.(names := normalized.names + [name]);
        case RootDir => normalized := NormalPath(true, []);
      }
    }
  }

  function JoinNames(names: seq<string>): string {
    if names == [] then "" else if |names| == 1 then names[0] else names[0] + "/" + JoinNames(names[1..])
  }

  function ToText(path: NormalPath): string {
    (if path.absolute then "/" else "") + JoinNames(path.names)
  }

  // Normalisation laws

  predicate IsName(piece: string) {
    piece != "" && piece != "." && piece != ".." && '/' !in piece
  }

  predicate OnlyNames(path: NormalPath) {
    forall i :: 0 <= i < |path.names| ==> IsName(path.names[i])
  }

  function WalkPieces(path: NormalPath, pieces: seq<string>): NormalPath {
    Walk(path, PieceComponents(pieces, false))
  }

  lemma {:induction false} WalkConcat(path: NormalPath, a: seq<Component>, b: seq<Component>)
    ensures Walk(path, a + b) == Walk(Walk(path, a), b)
    decreases |a|
  {
    if a == [] {
      assert a + b == b;
    } else {
      WalkConcat(Push(path, a[0]), a[1..], b);
      assert (a + b)[1..] == a[1..] + b;
    }
  }

  lemma {:induction false} PieceComponentsConcat(a: seq<string>, b: seq<string>, leading: bool)
    requires a != []
    ensures PieceComponents(a + b, leading) == PieceComponents(a, leading) + PieceComponents(b, false)
  {
    assert (a + b)[1..] == a[1..] + b;
    if a[1..] == [] {
      assert a[1..] + b == b;
    } else {
      PieceComponentsConcat(a[1..], b, false);
    }
  }

  lemma {:induction false} WalkPiecesConcat(path: NormalPath, a: seq<string>, b: seq<string>)
    ensures WalkPieces(path, a + b) == WalkPieces(WalkPieces(path, a), b)
  {
    if a == [] {
      assert a + b == b;
    } else {
      PieceComponentsConcat(a, b, false);
      WalkConcat(path, PieceComponents(a, false), PieceComponents(b, false));
    }
  }

  lemma {:induction false} WalkOne(path: NormalPath, c: Component)
    ensures Walk(path, [c]) == Push(path, c)
  {
    assert [c][1..] == [];
  }

  /** Only the pieces and the leading separator matter. */
  lemma {:induction false} NormalizeByPieces(path: string)
    ensures Normalize(path) == WalkPieces(NormalPath(IsAbsolute(path), []), Split(path))
  {
    var pieces := Split(path);
    var components := PieceComponents(pieces, false);
    if IsAbsolute(path) {
      WalkConcat(EmptyPath, [RootDir], components);
      WalkOne(EmptyPath, RootDir);
    } else if pieces[0] == "." {
      WalkConcat(EmptyPath, [CurDir], PieceComponents(pieces[1..], false));
      WalkOne(EmptyPath, CurDir);
      assert Components(path) == [CurDir] + PieceComponents(pieces[1..], false);
      assert components == PieceComponents(pieces[1..], false);
    } else {
      assert Components(path) == components;
    }
  }

  lemma {:induction false} SplitStep(text: string)
    requires text != ""
    ensures var rest := Split(text[1..]);
            Split(text) == if text[0] == '/' then [""] + rest else [[text[0]] + rest[0]] + rest[1..]
  {
  }

  lemma {:induction false} SplitAtSeparator(a: string, b: string)
    ensures Split(a + "/" + b) == Split(a) + Split(b)
  {
    var text := a + "/" + b;
    if a == "" {
      assert text == "/" + b && text[1..] == b;
    } else {
      SplitAtSeparator(a[1..], b);
      SplitStep(text);
      SplitStep(a);
      hide Split;
      assert text[1..] == a[1..] + "/" + b;
      PrefixFirstPiece(a[0], Split(a[1..]), Split(b));
    }
  }

  lemma {:induction false} PrefixFirstPiece(c: char, left: seq<string>, right: seq<string>)
    requires left != []
    ensures [[c] + (left + right)[0]] + (left + right)[1..] == [[c] + left[0]] + left[1..] + right
    ensures [""] + (left + right) == [""] + left + right
  {
  }

  lemma {:induction false} SplitPiecesHaveNoSeparator(text: string)
    ensures forall i :: 0 <= i < |Split(text)| ==> '/' !in Split(text)[i]
  {
    if text != "" {
      SplitPiecesHaveNoSeparator(text[1..]);
    }
  }

  lemma {:induction false} WalkKeepsNames(path: NormalPath, pieces: seq<string>)
    requires OnlyNames(path)
    requires forall i :: 0 <= i < |pieces| ==> '/' !in pieces[i]
    ensures OnlyNames(WalkPieces(path, pieces)) && WalkPieces(path, pieces).absolute == path.absolute
    decreases |pieces|
  {
    if pieces != [] {
      var first := PieceComponent(pieces[0], false);
      WalkConcat(path, first, PieceComponents(pieces[1..], false));
      var next := Walk(path, first);
      assert OnlyNames(next) && next.absolute == path.absolute by {
        if first != [] {
          assert first[1..] == [];
        }
      }
      WalkKeepsNames(next, pieces[1..]);
    }
  }

  /** A normal form holds no `.`, no `..` and no separator inside a name. */
  lemma {:induction false} NormalFormsHaveOnlyNames(path: string)
    ensures OnlyNames(Normalize(path)) && Normalize(path).absolute == IsAbsolute(path)
  {
    NormalizeByPieces(path);
    SplitPiecesHaveNoSeparator(path);
    WalkKeepsNames(NormalPath(IsAbsolute(path), []), Split(path));
  }

  lemma {:induction false} SplitOfPlain(text: string)
    requires '/' !in text
    ensures Split(text) == [text]
  {
    if text != "" {
      SplitOfPlain(text[1..]);
      assert [text[0]] + text[1..] == text;
    }
  }

  lemma {:induction false} SplitOfJoinedNames(names: seq<string>)
    requires names != [] && forall i :: 0 <= i < |names| ==> IsName(names[i])
    ensures Split(JoinNames(names)) == names
  {
    SplitOfPlain(names[0]);
    if |names| > 1 {
      SplitAtSeparator(names[0], JoinNames(names[1..]));
      SplitOfJoinedNames(names[1..]);
    }
    assert names == [names[0]] + names[1..];
  }

  lemma {:induction false} WalkOverNames(path: NormalPath, names: seq<string>)
    requires forall i :: 0 <= i < |names| ==> IsName(names[i])
    ensures WalkPieces(path, names) == path.(names := path.names + names)
    decreases |names|
  {
    if names == [] {
      assert path.names + names == path.names;
    } else {
      var next := path.(names := path.names + [names[0]]);
      assert ([Normal(names[0])] + PieceComponents(names[1..], false))[1..] == PieceComponents(names[1..], false);
      WalkOverNames(next, names[1..]);
      assert path.names + [names[0]] + names[1..] == path.names + names;
    }
  }

  lemma {:induction false} NormalizeOfRoots()
    ensures Normalize("/") == NormalPath(true, []) && Normalize("") == EmptyPath
  {
    NormalizeByPieces("/");
    assert Split("/") == [""] + Split("");
    assert PieceComponents([""], false) == [] && PieceComponents(["", ""], false) == [];
  }

  lemma {:induction false} NormalizeOfText(path: NormalPath)
    requires OnlyNames(path)
    ensures Normalize(ToText(path)) == path
  {
    var text, joined := ToText(path), JoinNames(path.names);
    if path.names == [] {
      NormalizeOfRoots();
    } else {
      NormalizeByPieces(text);
      hide Normalize;
      hide WalkPieces;
      SplitOfJoinedNames(path.names);
      WalkOverNames(NormalPath(path.absolute, []), path.names);
      assert [] + path.names == path.names;
      if path.absolute {
        assert text[1..] == joined;
        WalkPiecesConcat(NormalPath(true, []), [""], path.names);
        BlankPiece(NormalPath(true, []), "");
      } else {
        assert text == joined;
        assert joined[0] == path.names[0][0] && path.names[0][0] in path.names[0];
      }
    }
  }

  /** Normalising a normal form changes nothing. */
  lemma {:induction false} NormalizeIsIdempotent(path: string)
    ensures Normalize(ToText(Normalize(path))) == Normalize(path)
  {
    NormalFormsHaveOnlyNames(path);
    NormalizeOfText(Normalize(path));
  }

  /** Pieces that stand for nothing. */
  predicate IsBlank(piece: string) {
    piece == "" || piece == "."
  }

  lemma {:induction false} BlankPiece(path: NormalPath, piece: string)
    requires IsBlank(piece)
    ensures WalkPieces(path, [piece]) == path
  {
    assert PieceComponents([piece], false) == [];
  }

  /** Joining a relative path continues the walk of the base. */
  lemma {:induction false} JoinWalksOn(base: string, path: string)
    requires !IsAbsolute(path)
    ensures Normalize(Join(base, path)) == WalkPieces(Normalize(base), Split(path))
  {
    hide WalkPieces;
    hide Normalize;
    var joined := Join(base, path);
    NormalizeByPieces(base);
    NormalizeByPieces(joined);
    var start := NormalPath(IsAbsolute(base), []);
    if base == "" {
      assert joined == path;
      SplitOfPlain("");
      BlankPiece(start, "");
    } else if base[|base| - 1] == '/' {
      var front := base[..|base| - 1];
      assert base == front + "/" + "" && joined == front + "/" + path;
      SplitAtSeparator(front, "");
      SplitAtSeparator(front, path);
      WalkPiecesConcat(start, Split(front), [""]);
      BlankPiece(WalkPieces(start, Split(front)), "");
      WalkPiecesConcat(start, Split(front), Split(path));
    } else {
      SplitAtSeparator(base, path);
      WalkPiecesConcat(start, Split(base), Split(path));
    }
  }

  /** The base of a join may be normalised first. */
  lemma {:induction false} NormalizeBaseFirst(base: string, path: string)
    requires !IsAbsolute(path)
    ensures Normalize(Join(base, path)) == Normalize(Join(ToText(Normalize(base)), path))
  {
    JoinWalksOn(base, path);
    JoinWalksOn(ToText(Normalize(base)), path);
    NormalizeIsIdempotent(base);
  }

  /** Redundant spellings of a path: doubled separators, `.` and a name followed by `..`. */
  lemma {:induction false} RedundantSpellings(a: string, piece: string, name: string, b: string)
    requires IsBlank(piece) && IsName(name)
    ensures Normalize(a + "/" + (piece + "/" + b)) == Normalize(a + "/" + b)
    ensures Normalize(a + "/" + (name + "/" + (".." + "/" + b))) == Normalize(a + "/" + b)
  {
    hide WalkPieces;
    hide Normalize;
    hide Split;
    var plain, blank, detour := b, piece + "/" + b, name + "/" + (".." + "/" + b);
    InsertedPieces(a, b);
    InsertedPieces(a, blank);
    InsertedPieces(a, detour);
    var at := WalkPieces(NormalPath(IsAbsolute(a + "/"), []), Split(a));
    SplitAtSeparator(piece, b);
    SplitOfPlain(piece);
    WalkPiecesConcat(at, [piece], Split(b));
    BlankPiece(at, piece);
    SplitAtSeparator(name, ".." + "/" + b);
    SplitAtSeparator("..", b);
    SplitOfPlain(name);
    SplitOfPlain("..");
    WalkPiecesConcat(at, [name], [".."] + Split(b));
    WalkPiecesConcat(WalkPieces(at, [name]), [".."], Split(b));
    ThereAndBack(at, name);
  }

  lemma {:induction false} ThereAndBack(path: NormalPath, name: string)
    requires IsName(name)
    ensures WalkPieces(WalkPieces(path, [name]), [".."]) == path
  {
    assert [name][1..] == [] && [".."][1..] == [];
    assert PieceComponents([".."], false) == PieceComponent("..", false) + [];
    WalkOne(path, Normal(name));
    WalkOne(path.(names := path.names + [name]), ParentDir);
    assert (path.names + [name])[..|path.names|] == path.names;
  }

  lemma {:induction false} InsertedPieces(a: string, b: string)
    ensures Normalize(a + "/" + b) == WalkPieces(WalkPieces(NormalPath(IsAbsolute(a + "/"), []), Split(a)), Split(b))
  {
    NormalizeByPieces(a + "/" + b);
    SplitAtSeparator(a, b);
    assert (a + "/" + b)[0] == (a + "/")[0];
    WalkPiecesConcat(NormalPath(IsAbsolute(a + "/"), []), Split(a), Split(b));
  }

  // Rules

  datatype PatternKind = LiteralPattern | WildcardPattern | RegexPattern

  datatype MatchPattern = MatchPattern(kind: PatternKind, value: string)

  datatype RuleBase = Workdir | Absolute

  datatype Permissions = Permissions(read: bool, write: bool)

  datatype Access = Read | Write | ReadWrite

  datatype Decision = Allow | Deny

  datatype Rule = Rule(base: RuleBase, pattern: MatchPattern, permissions: Permissions)

  datatype Policy = Policy(workdirs: seq<string>, rules: seq<Rule>)

  /** The regex engine, for patterns a user wrote as regular expressions. */
  type RegexEngine = (string, string) -> Result<bool, string>

  function PatternMatches(pattern: MatchPattern, input: string, regex: RegexEngine): Result<bool, string> {
    match pattern.kind
    case LiteralPattern => Ok(pattern.value == input)
    case WildcardPattern =>
      (match Compile(pattern.value)
       case None => Err(DANGLING_ESCAPE)
       case Some(fragments) => Ok(RegexAccepts(RegexText(fragments), input)))
    case RegexPattern => regex(pattern.value, input)
  }

  /** Reading needs the read permission, writing the write permission, and both need both. */
  function Allows(permissions: Permissions, access: Access): (allowed: bool)
    ensures allowed <==> (access != Write ==> permissions.read) && (access != Read ==> permissions.write)
  {
    match access
    case Read => permissions.read
    case Write => permissions.write
    case ReadWrite => permissions.read && permissions.write
  }

  /** `\\` counts as a separator when a path is matched. */
  function MatchText(path: NormalPath): (text: string)
    ensures |text| == |ToText(path)|
    ensures forall i :: 0 <= i < |text| ==> text[i] != '\\' && (text[i] == ToText(path)[i] || (text[i] == '/' && ToText(path)[i] == '\\'))
  {
    var text := ToText(path);
    seq(|text|, i requires 0 <= i < |text| => if text[i] == '\\' then '/' else text[i])
  }

  /** Component-wise prefix of normal forms. */
  predicate Under(workdir: NormalPath, path: NormalPath) {
    workdir.names <= path.names && workdir.absolute == path.absolute
  }

  /** The names of the workdir and those of the rest are the names of the path. */
  predicate IsRest(workdir: NormalPath, path: NormalPath, rest: NormalPath) {
    && path.names == workdir.names + rest.names
    && (workdir.absolute == path.absolute || workdir == EmptyPath)
    && (rest.absolute <==> path.absolute && !workdir.absolute)
  }

  /** `Path::strip_prefix`; the empty path is a prefix of every path, absolute ones included. */
  function StripPrefix(path: NormalPath, workdir: NormalPath): (rest: Option<NormalPath>)
    ensures rest.Some? ==> IsRest(workdir, path, rest.value)
    ensures rest.None? ==> forall other :: !IsRest(workdir, path, other)
  {
    if !Under(workdir, path) && workdir != EmptyPath then None
    else if workdir.absolute then Some(NormalPath(false, path.names[|workdir.names|..]))
    else Some(path.(names := path.names[|workdir.names|..]))
  }

  function WorkdirMatch(rule: Rule, path: NormalPath, workdir: string, regex: RegexEngine): Result<bool, string> {
    match StripPrefix(path, Normalize(workdir))
    case None => Ok(false)
    case Some(relative) => PatternMatches(rule.pattern, MatchText(relative), regex)
  }

  /** The first outcome that is not a plain mismatch. */
  function FirstOutcome(outcomes: seq<Result<bool, string>>): Result<bool, string> {
    if outcomes == [] then Ok(false)
    else if outcomes[0] == Ok(false) then FirstOutcome(outcomes[1..])
    else outcomes[0]
  }

  function WorkdirOutcomes(rule: Rule, path: NormalPath, workdirs: seq<string>, regex: RegexEngine): seq<Result<bool, string>> {
    seq(|workdirs|, i requires 0 <= i < |workdirs| => WorkdirMatch(rule, path, workdirs[i], regex))
  }

  function PathMatch(rule: Rule, path: NormalPath, workdirs: seq<string>, regex: RegexEngine): Result<bool, string> {
    match rule.base
    case Absolute => PatternMatches(rule.pattern, MatchText(path), regex)
    case Workdir => FirstOutcome(WorkdirOutcomes(rule, path, workdirs, regex))
  }

  function RuleMatch(rule: Rule, paths: seq<NormalPath>, workdirs: seq<string>, regex: RegexEngine): Result<bool, string> {
    FirstOutcome(seq(|paths|, i requires 0 <= i < |paths| => PathMatch(rule, paths[i], workdirs, regex)))
  }

  function RequestedPaths(policy: Policy, path: string): seq<NormalPath> {
    if IsAbsolute(path) then [Normalize(path)]
    else seq(|policy.workdirs|, i requires 0 <= i < |policy.workdirs| => Normalize(Join(policy.workdirs[i], path)))
  }

  lemma {:induction false} FirstOutcomeAt(outcomes: seq<Result<bool, string>>, n: nat)
    requires n <= |outcomes|
    requires forall i :: 0 <= i < n ==> outcomes[i] == Ok(false)
    ensures FirstOutcome(outcomes) == FirstOutcome(outcomes[n..])
    ensures n < |outcomes| && outcomes[n] != Ok(false) ==> FirstOutcome(outcomes) == outcomes[n]
    ensures n == |outcomes| ==> FirstOutcome(outcomes) == Ok(false)
  {
    if n > 0 {
      FirstOutcomeAt(outcomes[1..], n - 1);
      assert outcomes[1..][n - 1..] == outcomes[n..];
    } else {
      assert outcomes[0..] == outcomes;
    }
  }

  method MatchesWorkdirPath(rule: Rule, path: NormalPath, workdirs: seq<string>, regex: RegexEngine)
    returns (result: Result<bool, string>)
    ensures result == FirstOutcome(WorkdirOutcomes(rule, path, workdirs, regex))
  {
    hide Normalize;
    hide PatternMatches;
    hide MatchText;
    ghost var outcomes := WorkdirOutcomes(rule, path, workdirs, regex);
    for i := 0 to |workdirs|
      invariant forall k :: 0 <= k < i ==> outcomes[k] == Ok(false)
    {
      var workdir := NormalizePath(workdirs[i]);
      var relative := StripPrefix(path, workdir);
      FirstOutcomeAt(outcomes, i);
      if relative.Some? {
        var matched := PatternMatches(rule.pattern, MatchText(relative.value), regex);
        if matched != Ok(false) {
          return matched;
        }
      }
    }
    FirstOutcomeAt(outcomes, |workdirs|);
    result := Ok(false);
  }

  method MatchesAny(rule: Rule, paths: seq<NormalPath>, workdirs: seq<string>, regex: RegexEngine)
    returns (result: Result<bool, string>)
    ensures result == RuleMatch(rule, paths, workdirs, regex)
  {
    ghost var outcomes := seq(|paths|, i requires 0 <= i < |paths| => PathMatch(rule, paths[i], workdirs, regex));
    for i := 0 to |paths|
      invariant forall k :: 0 <= k < i ==> outcomes[k] == Ok(false)
    {
      var matched;
      match rule.base {
        case Absolute => matched := PatternMatches(rule.pattern, MatchText(paths[i]), regex);
        case Workdir => matched := MatchesWorkdirPath(rule, paths[i], workdirs, regex);
      }
      FirstOutcomeAt(outcomes, i);
      if matched != Ok(false) {
        return matched;
      }
    }
    FirstOutcomeAt(outcomes, |paths|);
    result := Ok(false);
  }

  /** Rule `i` is the first one that does not plainly mismatch. */
  predicate Decides(policy: Policy, path: string, regex: RegexEngine, i: nat) {
    var paths := RequestedPaths(policy, path);
    && i < |policy.rules|
    && RuleMatch(policy.rules[i], paths, policy.workdirs, regex) != Ok(false)
    && forall k :: 0 <= k < i ==> RuleMatch(policy.rules[k], paths, policy.workdirs, regex) == Ok(false)
  }

  /** The rule has every permission that the access needs. */
  predicate Grants(rule: Rule, access: Access) {
    match access
    case Read => rule.permissions.read
    case Write => rule.permissions.write
    case ReadWrite => rule.permissions.read && rule.permissions.write
  }

  function DecideFrom(rules: seq<Rule>, workdirs: seq<string>, paths: seq<NormalPath>, access: Access, regex: RegexEngine):
    Result<Decision, string>
  {
    if rules == [] then Ok(Deny)
    else
      match RuleMatch(rules[0], paths, workdirs, regex)
      case Err(message) => Err(message)
      case Ok(true) => Ok(if Allows(rules[0].permissions, access) then Allow else Deny)
      case Ok(false) => DecideFrom(rules[1..], workdirs, paths, access, regex)
  }

  function Decide(policy: Policy, path: string, access: Access, regex: RegexEngine): Result<Decision, string> {
    DecideFrom(policy.rules, policy.workdirs, RequestedPaths(policy, path), access, regex)
  }

  method CollectRequestedPaths(policy: Policy, path: string) returns (paths: seq<NormalPath>)
    ensures paths == RequestedPaths(policy, path)
  {
    hide Normalize;
    hide Join;
    if IsAbsolute(path) {
      var normalized := NormalizePath(path);
      return [normalized];
    }
    paths := [];
    for w := 0 to |policy.workdirs|
      invariant paths == RequestedPaths(policy, path)[..w]
    {
      var normalized := NormalizePath(Join(policy.workdirs[w], path));
      paths := paths + [normalized];
    }
  }

  method DecidePathAccess(policy: Policy, path: string, access: Access, regex: RegexEngine)
    returns (decision: Result<Decision, string>)
    ensures decision == Decide(policy, path, access, regex)
  {
    var paths := CollectRequestedPaths(policy, path);
    hide RequestedPaths;
    hide RuleMatch;
    var rules := policy.rules;
    assert rules[0..] == rules;
    for i := 0 to |rules|
      invariant Decide(policy, path, access, regex) == DecideFrom(rules[i..], policy.workdirs, paths, access, regex)
    {
      assert rules[i..][1..] == rules[i + 1..];
      var matched := MatchesAny(rules[i], paths, policy.workdirs, regex);
      match matched {
        case Err(message) => return Err(message);
        case Ok(true) => return Ok(if Allows(rules[i].permissions, access) then Allow else Deny);
        case Ok(false) =>
      }
    }
    decision := Ok(Deny);
  }

  lemma {:induction false} DecideFromMeaning(rules: seq<Rule>, workdirs: seq<string>, paths: seq<NormalPath>, access: Access,
                                             regex: RegexEngine, n: nat)
    requires n <= |rules|
    requires forall k :: 0 <= k < n ==> RuleMatch(rules[k], paths, workdirs, regex) == Ok(false)
    ensures DecideFrom(rules, workdirs, paths, access, regex) == DecideFrom(rules[n..], workdirs, paths, access, regex)
  {
    hide RuleMatch;
    if n > 0 {
      DecideFromMeaning(rules[1..], workdirs, paths, access, regex, n - 1);
      assert rules[1..][n - 1..] == rules[n..];
    } else {
      assert rules[0..] == rules;
    }
  }

  /**
   * The first rule that matches decides by its permissions, an unreadable pattern reached
   * before that is an error, and no match at all denies.
   */
  lemma {:induction false} FirstMatchDecides(policy: Policy, path: string, access: Access, regex: RegexEngine)
    ensures forall i: nat :: Decides(policy, path, regex, i) ==>
              Decide(policy, path, access, regex) ==
                match RuleMatch(policy.rules[i], RequestedPaths(policy, path), policy.workdirs, regex) {
                  case Err(message) => Err(message)
                  case Ok(_) => Ok(if Grants(policy.rules[i], access) then Allow else Deny)
                }
    ensures (forall i: nat :: !Decides(policy, path, regex, i)) ==> Decide(policy, path, access, regex) == Ok(Deny)
  {
    var rules, paths := policy.rules, RequestedPaths(policy, path);
    hide RuleMatch;
    hide RequestedPaths;
    forall i: nat | Decides(policy, path, regex, i)
      ensures Decide(policy, path, access, regex) ==
                match RuleMatch(policy.rules[i], RequestedPaths(policy, path), policy.workdirs, regex) {
                  case Err(message) => Err(message)
                  case Ok(_) => Ok(if Grants(policy.rules[i], access) then Allow else Deny)
                }
    {
      DecideFromMeaning(rules, policy.workdirs, paths, access, regex, i);
    }
    if forall i: nat :: !Decides(policy, path, regex, i) {
      NoRuleMatches(policy, path, regex, |rules|);
      DecideFromMeaning(rules, policy.workdirs, paths, access, regex, |rules|);
    }
  }

  lemma {:induction false} NoRuleMatches(policy: Policy, path: string, regex: RegexEngine, n: nat)
    requires n <= |policy.rules| && forall i: nat :: !Decides(policy, path, regex, i)
    ensures forall k :: 0 <= k < n ==>
              RuleMatch(policy.rules[k], RequestedPaths(policy, path), policy.workdirs, regex) == Ok(false)
  {
    hide RuleMatch;
    hide RequestedPaths;
    if n > 0 {
      NoRuleMatches(policy, path, regex, n - 1);
      assert !Decides(policy, path, regex, n - 1);
    }
  }

  /** Where no rule has a permission, nothing that needs it is allowed. */
  lemma {:induction false} PermissionIsNeeded(policy: Policy, path: string, access: Access, regex: RegexEngine)
    requires Decide(policy, path, access, regex) == Ok(Allow)
    ensures access != Read ==> exists rule :: rule in policy.rules && rule.permissions.write
    ensures access != Write ==> exists rule :: rule in policy.rules && rule.permissions.read
  {
    AllowedByRule(policy.rules, policy.workdirs, RequestedPaths(policy, path), access, regex);
  }

  lemma {:induction false} AllowedByRule(rules: seq<Rule>, workdirs: seq<string>, paths: seq<NormalPath>, access: Access, regex: RegexEngine)
    requires DecideFrom(rules, workdirs, paths, access, regex) == Ok(Allow)
    ensures exists rule :: rule in rules && Grants(rule, access)
  {
    hide RuleMatch;
    if RuleMatch(rules[0], paths, workdirs, regex) == Ok(false) {
      AllowedByRule(rules[1..], workdirs, paths, access, regex);
      var rule :| rule in rules[1..] && Grants(rule, access);
      assert rule in rules;
    } else {
      assert rules[0] in rules && Grants(rules[0], access);
    }
  }

  // The documented meaning of a policy

  /** The pattern matches the text, as its documentation says. */
  ghost predicate Denotes(pattern: MatchPattern, text: string, regex: RegexEngine) {
    match pattern.kind
    case LiteralPattern => text == pattern.value
    case WildcardPattern => GlobMatches(pattern.value, text)
    case RegexPattern => regex(pattern.value, text) == Ok(true)
  }

  /** The pattern can be compiled. */
  ghost predicate Compiles(pattern: MatchPattern, regex: RegexEngine) {
    match pattern.kind
    case LiteralPattern => true
    case WildcardPattern => TrailingBackslashes(pattern.value) % 2 == 0
    case RegexPattern => forall text :: regex(pattern.value, text).Ok?
  }

  /** The rule speaks of the path: of all of it, or of its rest below some workdir. */
  ghost predicate SpeaksOf(rule: Rule, path: NormalPath, workdirs: seq<string>, regex: RegexEngine) {
    match rule.base
    case Absolute => Denotes(rule.pattern, MatchText(path), regex)
    case Workdir => exists w, rest :: 0 <= w < |workdirs| && SpeaksOfRest(rule, path, workdirs[w], rest, regex)
  }

  ghost predicate SpeaksOfRest(rule: Rule, path: NormalPath, workdir: string, rest: NormalPath, regex: RegexEngine) {
    IsRest(Normalize(workdir), path, rest) && Denotes(rule.pattern, MatchText(rest), regex)
  }

  /** The rule speaks of some requested path. */
  ghost predicate Applies(rule: Rule, paths: seq<NormalPath>, workdirs: seq<string>, regex: RegexEngine) {
    exists i :: 0 <= i < |paths| && SpeaksOf(rule, paths[i], workdirs, regex)
  }

  /** Some rule that grants the access applies, and no rule before it does. */
  ghost predicate Granted(policy: Policy, paths: seq<NormalPath>, access: Access, regex: RegexEngine) {
    exists n: nat :: GrantedBy(policy, paths, access, regex, n)
  }

  ghost predicate GrantedBy(policy: Policy, paths: seq<NormalPath>, access: Access, regex: RegexEngine, n: nat) {
    && n < |policy.rules| && Applies(policy.rules[n], paths, policy.workdirs, regex) && Grants(policy.rules[n], access)
    && forall k :: 0 <= k < n ==> !Applies(policy.rules[k], paths, policy.workdirs, regex)
  }

  predicate OneLine(path: NormalPath) {
    forall i :: 0 <= i < |path.names| ==> '\n' !in path.names[i]
  }

  lemma {:induction false} JoinedIsOneLine(names: seq<string>)
    requires forall i :: 0 <= i < |names| ==> '\n' !in names[i]
    ensures '\n' !in JoinNames(names)
  {
    if |names| > 1 {
      JoinedIsOneLine(names[1..]);
    }
  }

  lemma {:induction false} TextIsOneLine(path: NormalPath)
    requires OneLine(path)
    ensures '\n' !in MatchText(path)
  {
    JoinedIsOneLine(path.names);
    hide JoinNames;
  }

  lemma {:induction false} PatternMeans(pattern: MatchPattern, text: string, regex: RegexEngine)
    requires '\n' !in text && Compiles(pattern, regex)
    ensures PatternMatches(pattern, text, regex) == Ok(Denotes(pattern, text, regex))
  {
    hide Compile;
    hide GlobMatches;
    hide RegexAccepts;
    match pattern.kind {
      case LiteralPattern =>
      case WildcardPattern => WildcardMeansItsDocumentation(pattern.value, text);
      case RegexPattern =>
        var matched := regex(pattern.value, text);
        assert matched.Ok?;
        assert matched.value <==> matched == Ok(true);
        assert Denotes(pattern, text, regex) <==> matched.value;
        assert matched == Ok(matched.value);
    }
  }

  /** The rest below a workdir is a single one. */
  lemma {:induction false} RestIsFixed(workdir: NormalPath, path: NormalPath, a: NormalPath, b: NormalPath)
    requires IsRest(workdir, path, a) && IsRest(workdir, path, b)
    ensures a == b
  {
    assert a.names == path.names[|workdir.names|..] == b.names;
  }

  lemma {:induction false} WorkdirMeans(rule: Rule, path: NormalPath, workdir: string, regex: RegexEngine)
    requires OneLine(path) && Compiles(rule.pattern, regex)
    ensures WorkdirMatch(rule, path, workdir, regex).Ok?
    ensures WorkdirMatch(rule, path, workdir, regex).value <==> exists rest :: SpeaksOfRest(rule, path, workdir, rest, regex)
  {
    hide Normalize;
    hide PatternMatches;
    hide Denotes;
    hide MatchText;
    hide Compiles;
    var rest := StripPrefix(path, Normalize(workdir));
    if rest.Some? {
      assert OneLine(rest.value);
      TextIsOneLine(rest.value);
      PatternMeans(rule.pattern, MatchText(rest.value), regex);
      forall other | SpeaksOfRest(rule, path, workdir, other, regex)
        ensures other == rest.value
      {
        RestIsFixed(Normalize(workdir), path, other, rest.value);
      }
      assert SpeaksOfRest(rule, path, workdir, rest.value, regex) <==> Denotes(rule.pattern, MatchText(rest.value), regex);
    }
  }

  /** Without errors the first outcome says whether any is a match. */
  lemma {:induction false} AnyOutcome(outcomes: seq<Result<bool, string>>)
    requires forall i :: 0 <= i < |outcomes| ==> outcomes[i].Ok?
    ensures FirstOutcome(outcomes).Ok?
    ensures FirstOutcome(outcomes).value <==> exists i :: 0 <= i < |outcomes| && outcomes[i].value
  {
    if outcomes != [] && outcomes[0] == Ok(false) {
      AnyOutcome(outcomes[1..]);
      if i :| 0 <= i < |outcomes| && outcomes[i].value {
        assert outcomes[1..][i - 1].value;
      }
    }
  }

  lemma {:induction false} PathMeans(rule: Rule, path: NormalPath, workdirs: seq<string>, regex: RegexEngine)
    requires OneLine(path) && Compiles(rule.pattern, regex)
    ensures PathMatch(rule, path, workdirs, regex) == Ok(SpeaksOf(rule, path, workdirs, regex))
  {
    match rule.base {
      case Absolute =>
        TextIsOneLine(path);
        PatternMeans(rule.pattern, MatchText(path), regex);
      case Workdir =>
        var outcomes := WorkdirOutcomes(rule, path, workdirs, regex);
        hide SpeaksOfRest;
        hide WorkdirMatch;
        forall w | 0 <= w < |workdirs|
          ensures outcomes[w].Ok?
          ensures outcomes[w].value <==> exists rest :: SpeaksOfRest(rule, path, workdirs[w], rest, regex)
        {
          WorkdirMeans(rule, path, workdirs[w], regex);
        }
        AnyOutcome(outcomes);
        hide FirstOutcome;
        if SpeaksOf(rule, path, workdirs, regex) {
          var w, rest :| 0 <= w < |workdirs| && SpeaksOfRest(rule, path, workdirs[w], rest, regex);
          assert outcomes[w].value;
        }
    }
  }

  lemma {:induction false} RuleMeans(rule: Rule, paths: seq<NormalPath>, workdirs: seq<string>, regex: RegexEngine)
    requires (forall p :: p in paths ==> OneLine(p)) && Compiles(rule.pattern, regex)
    ensures RuleMatch(rule, paths, workdirs, regex) == Ok(Applies(rule, paths, workdirs, regex))
  {
    var outcomes := seq(|paths|, i requires 0 <= i < |paths| => PathMatch(rule, paths[i], workdirs, regex));
    forall i | 0 <= i < |paths|
      ensures outcomes[i] == Ok(SpeaksOf(rule, paths[i], workdirs, regex))
    {
      PathMeans(rule, paths[i], workdirs, regex);
    }
    hide PathMatch;
    hide SpeaksOf;
    hide OneLine;
    hide Compiles;
    AnyOutcome(outcomes);
    hide FirstOutcome;
    if Applies(rule, paths, workdirs, regex) {
      var i :| 0 <= i < |paths| && SpeaksOf(rule, paths[i], workdirs, regex);
      assert outcomes[i].value;
    }
  }

  /**
   * For paths of one line and patterns that compile, a policy allows exactly what it documents:
   * an access is allowed if and only if the first rule that speaks of a requested path grants it.
   */
  lemma {:induction false} AllowedExactly(policy: Policy, path: string, access: Access, regex: RegexEngine)
    requires forall p :: p in RequestedPaths(policy, path) ==> OneLine(p)
    requires forall rule :: rule in policy.rules ==> Compiles(rule.pattern, regex)
    ensures Decide(policy, path, access, regex) ==
            Ok(if Granted(policy, RequestedPaths(policy, path), access, regex) then Allow else Deny)
  {
    var rules, paths := policy.rules, RequestedPaths(policy, path);
    forall k | 0 <= k < |rules|
      ensures RuleMatch(rules[k], paths, policy.workdirs, regex) == Ok(Applies(rules[k], paths, policy.workdirs, regex))
    {
      RuleMeans(rules[k], paths, policy.workdirs, regex);
    }
    FirstMatchDecides(policy, path, access, regex);
    hide RuleMatch;
    hide Applies;
    hide Decide;
    hide RequestedPaths;
    hide Grants;
    if n: nat :| n < |rules| && Applies(rules[n], paths, policy.workdirs, regex) {
      var first := FirstApplying(policy, paths, regex, n);
      assert Decides(policy, path, regex, first);
      if m: nat :| GrantedBy(policy, paths, access, regex, m) {
        assert m == first;
      }
      assert Grants(rules[first], access) <==> GrantedBy(policy, paths, access, regex, first);
    }
  }

  lemma {:induction false} FirstApplying(policy: Policy, paths: seq<NormalPath>, regex: RegexEngine, n: nat) returns (first: nat)
    requires n < |policy.rules| && Applies(policy.rules[n], paths, policy.workdirs, regex)
    ensures first <= n && Applies(policy.rules[first], paths, policy.workdirs, regex)
    ensures forall k :: 0 <= k < first ==> !Applies(policy.rules[k], paths, policy.workdirs, regex)
  {
    hide Applies;
    if k: nat :| k < n && Applies(policy.rules[k], paths, policy.workdirs, regex) {
      first := FirstApplying(policy, paths, regex, k);
    } else {
      first := n;
    }
  }

  /** All spellings of an absolute path get the same decision. */
  lemma {:induction false} SpellingsAgree(policy: Policy, path: string, other: string, access: Access, regex: RegexEngine)
    requires IsAbsolute(path) && IsAbsolute(other)
    requires Normalize(path) == Normalize(other)
    ensures Decide(policy, path, access, regex) == Decide(policy, other, access, regex)
    ensures Decide(policy, path, access, regex) == Decide(policy, ToText(Normalize(path)), access, regex)
  {
    NormalizeIsIdempotent(path);
    NormalFormsHaveOnlyNames(path);
    assert ToText(Normalize(path))[0] == '/';
  }

  /** The same for relative paths: the spelling of the workdirs does not matter. */
  lemma {:induction false} WorkdirSpellingsAgree(policy: Policy, other: Policy, path: string, access: Access, regex: RegexEngine)
    requires policy.rules == other.rules && |policy.workdirs| == |other.workdirs|
    requires forall i :: 0 <= i < |policy.workdirs| ==> Normalize(policy.workdirs[i]) == Normalize(other.workdirs[i])
    ensures Decide(policy, path, access, regex) == Decide(other, path, access, regex)
  {
    if !IsAbsolute(path) {
      forall i | 0 <= i < |policy.workdirs|
        ensures Normalize(Join(policy.workdirs[i], path)) == Normalize(Join(other.workdirs[i], path))
      {
        JoinWalksOn(policy.workdirs[i], path);
        JoinWalksOn(other.workdirs[i], path);
      }
    }
    var paths := RequestedPaths(policy, path);
    assert paths == RequestedPaths(other, path);
    WorkdirNamesDoNotMatter(policy.rules, policy.workdirs, other.workdirs, paths, access, regex);
  }

  lemma {:induction false} WorkdirNamesDoNotMatter(rules: seq<Rule>, workdirs: seq<string>, others: seq<string>,
                                                   paths: seq<NormalPath>, access: Access, regex: RegexEngine)
    requires |workdirs| == |others|
    requires forall i :: 0 <= i < |workdirs| ==> Normalize(workdirs[i]) == Normalize(others[i])
    ensures DecideFrom(rules, workdirs, paths, access, regex) == DecideFrom(rules, others, paths, access, regex)
  {
    if rules != [] {
      WorkdirNamesDoNotMatter(rules[1..], workdirs, others, paths, access, regex);
      forall path
        ensures PathMatch(rules[0], path, workdirs, regex) == PathMatch(rules[0], path, others, regex)
      {
        assert WorkdirOutcomes(rules[0], path, workdirs, regex) == WorkdirOutcomes(rules[0], path, others, regex);
      }
      assert seq(|paths|, i requires 0 <= i < |paths| => PathMatch(rules[0], paths[i], workdirs, regex)) ==
             seq(|paths|, i requires 0 <= i < |paths| => PathMatch(rules[0], paths[i], others, regex));
    }
  }

  lemma {:induction false} OutcomeHasASource(outcomes: seq<Result<bool, string>>) returns (i: nat)
    requires FirstOutcome(outcomes) != Ok(false)
    ensures i < |outcomes| && outcomes[i] == FirstOutcome(outcomes)
  {
    if outcomes[0] != Ok(false) {
      return 0;
    }
    var k := OutcomeHasASource(outcomes[1..]);
    i := k + 1;
  }

  /** The path is a workdir or below one, in normal forms. */
  ghost predicate BelowSome(workdirs: seq<string>, path: NormalPath) {
    exists w :: 0 <= w < |workdirs| && Under(Normalize(workdirs[w]), path)
  }

  /** Some workdir normalises to this path. */
  ghost predicate NamesWorkdir(workdirs: seq<string>, path: NormalPath) {
    exists w :: 0 <= w < |workdirs| && Normalize(workdirs[w]) == path
  }

  ghost predicate HasWorkdirRules(policy: Policy) {
    forall rule :: rule in policy.rules ==> rule.base == Workdir
  }

  /**
   * A policy of workdir rules allows only paths whose normal form lies under a normalised
   * workdir, unless a workdir normalises to the empty path.
   */
  lemma {:induction false} OnlyWorkdirsAreAllowed(policy: Policy, path: string, access: Access, regex: RegexEngine)
    requires HasWorkdirRules(policy) && !NamesWorkdir(policy.workdirs, EmptyPath)
    requires Decide(policy, path, access, regex) == Ok(Allow)
    ensures exists i :: 0 <= i < |RequestedPaths(policy, path)| && BelowSome(policy.workdirs, RequestedPaths(policy, path)[i])
  {
    AllowedUnderWorkdir(policy.rules, policy.workdirs, RequestedPaths(policy, path), access, regex);
  }

  lemma {:induction false} AllowedUnderWorkdir(rules: seq<Rule>, workdirs: seq<string>, paths: seq<NormalPath>,
                                               access: Access, regex: RegexEngine)
    requires forall rule :: rule in rules ==> rule.base == Workdir
    requires !NamesWorkdir(workdirs, EmptyPath)
    requires DecideFrom(rules, workdirs, paths, access, regex) == Ok(Allow)
    ensures exists i :: 0 <= i < |paths| && BelowSome(workdirs, paths[i])
  {
    hide Normalize;
    var rule := rules[0];
    if RuleMatch(rule, paths, workdirs, regex) == Ok(false) {
      AllowedUnderWorkdir(rules[1..], workdirs, paths, access, regex);
    } else {
      var outcomes := seq(|paths|, i requires 0 <= i < |paths| => PathMatch(rule, paths[i], workdirs, regex));
      var i := OutcomeHasASource(outcomes);
      assert rule in rules;
      var w := OutcomeHasASource(WorkdirOutcomes(rule, paths[i], workdirs, regex));
      assert Under(Normalize(workdirs[w]), paths[i]);
      assert BelowSome(workdirs, paths[i]);
    }
  }

  /** Over these workdirs, every policy of workdir rules allows only absolute paths that are below one of them. */
  ghost predicate StaysBelow(workdirs: seq<string>) {
    forall rules, path, access, regex ::
      && HasWorkdirRules(Policy(workdirs, rules))
      && IsAbsolute(path)
      && Decide(Policy(workdirs, rules), path, access, regex) == Ok(Allow) ==>
        BelowSome(workdirs, Normalize(path))
  }

  /** A workdir that normalises to the empty path lets absolute paths through, unless the root is a workdir anyway. */
  lemma {:induction false} StaysBelowExactly(workdirs: seq<string>)
    ensures StaysBelow(workdirs) <==>
            !NamesWorkdir(workdirs, EmptyPath) || NamesWorkdir(workdirs, NormalPath(true, []))
  {
    hide Normalize;
    hide Decide;
    if NamesWorkdir(workdirs, NormalPath(true, [])) {
      forall path | IsAbsolute(path)
        ensures BelowSome(workdirs, Normalize(path))
      {
        RootHoldsEverything(workdirs, path);
      }
    } else if NamesWorkdir(workdirs, EmptyPath) {
      var policy := Policy(workdirs, [Rule(Workdir, MatchPattern(LiteralPattern, "/"), Permissions(true, true))]);
      RootIsAllowed(policy, (pattern, text) => Ok(false));
      NormalizeOfRoots();
      assert !BelowSome(workdirs, Normalize("/"));
      assert HasWorkdirRules(policy);
    } else {
      forall rules, path, access, regex: RegexEngine |
        HasWorkdirRules(Policy(workdirs, rules)) && IsAbsolute(path) &&
        Decide(Policy(workdirs, rules), path, access, regex) == Ok(Allow)
        ensures BelowSome(workdirs, Normalize(path))
      {
        OnlyWorkdirsAreAllowed(Policy(workdirs, rules), path, access, regex);
      }
    }
  }

  lemma {:induction false} RootHoldsEverything(workdirs: seq<string>, path: string)
    requires NamesWorkdir(workdirs, NormalPath(true, [])) && IsAbsolute(path)
    ensures BelowSome(workdirs, Normalize(path))
  {
    NormalFormsHaveOnlyNames(path);
    var w :| 0 <= w < |workdirs| && Normalize(workdirs[w]) == NormalPath(true, []);
    assert Under(Normalize(workdirs[w]), Normalize(path));
  }

  /** Some outcome matches and none is an error. */
  lemma {:induction false} SomeOutcomeMatches(outcomes: seq<Result<bool, string>>, i: nat)
    requires i < |outcomes| && outcomes[i] == Ok(true)
    requires forall k :: 0 <= k < |outcomes| ==> outcomes[k].Ok?
    ensures FirstOutcome(outcomes) == Ok(true)
  {
    if outcomes[0] == Ok(false) {
      SomeOutcomeMatches(outcomes[1..], i - 1);
    } else {
      assert outcomes[0].value;
    }
  }

  lemma {:induction false} RootIsAllowed(policy: Policy, regex: RegexEngine)
    requires NamesWorkdir(policy.workdirs, EmptyPath)
    requires policy.rules == [Rule(Workdir, MatchPattern(LiteralPattern, "/"), Permissions(true, true))]
    ensures Decide(policy, "/", Read, regex) == Ok(Allow)
  {
    NormalizeOfRoots();
    var rule, root := policy.rules[0], NormalPath(true, []);
    assert MatchText(root) == "/" && StripPrefix(root, EmptyPath) == Some(root);
    hide StripPrefix;
    hide Normalize;
    hide MatchText;
    var w :| 0 <= w < |policy.workdirs| && Normalize(policy.workdirs[w]) == EmptyPath;
    var outcomes := WorkdirOutcomes(rule, root, policy.workdirs, regex);
    SomeOutcomeMatches(outcomes, w);
    assert RequestedPaths(policy, "/") == [root];
    var matches := seq(1, i requires 0 <= i < 1 => PathMatch(rule, [root][i], policy.workdirs, regex));
    assert matches == [Ok(true)];
  }

  /** A workspace of `.` may read every absolute path, though none is below it. */
  lemma {:induction false} DotWorkspaceReadsEverything(path: string, regex: RegexEngine)
    requires IsAbsolute(path) && '\n' !in MatchText(Normalize(path))
    ensures var policy := Policy(["."], [Rule(Workdir, MatchPattern(WildcardPattern, "**"), Permissions(true, false))]);
            Decide(policy, path, Read, regex) == Ok(Allow) && !BelowSome(policy.workdirs, Normalize(path))
  {
    var policy := Policy(["."], [Rule(Workdir, MatchPattern(WildcardPattern, "**"), Permissions(true, false))]);
    var rule, target := policy.rules[0], Normalize(path);
    NormalFormsHaveOnlyNames(path);
    NormalizeOfDot();
    EverythingMatches(MatchText(target));
    hide Normalize;
    hide MatchText;
    hide Compile;
    hide RegexAccepts;
    assert StripPrefix(target, EmptyPath) == Some(target);
    var outcomes := WorkdirOutcomes(rule, target, policy.workdirs, regex);
    assert outcomes == [Ok(true)];
    assert RequestedPaths(policy, path) == [target];
    var matches := seq(1, i requires 0 <= i < 1 => PathMatch(rule, [target][i], policy.workdirs, regex));
    assert matches == [Ok(true)];
  }

  lemma {:induction false} NormalizeOfDot()
    ensures Normalize(".") == EmptyPath
  {
    NormalizeByPieces(".");
    SplitOfPlain(".");
    BlankPiece(EmptyPath, ".");
  }

  /** `**` matches every text of one line. */
  lemma {:induction false} EverythingMatches(text: string)
    requires '\n' !in text
    ensures Compile("**").Some? && RegexAccepts(RegexText(Compile("**").value), text)
  {
    var fragments := Compile("**").value;
    assert fragments == [AnyAcross];
    RegexTextMeans(fragments, text);
    assert text[..|text|] == text && text[|text|..] == "";
    assert Accepts(fragments[0], text[..|text|]) && Matches(fragments[1..], text[|text|..]);
  }
}
