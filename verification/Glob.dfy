// Wildcard patterns and the regular expressions they are compiled to.
module Glob {
  import opened Prelude

  /** The pieces of a generated expression. */
  datatype Fragment =
    | Literal(c: char)   // an escaped character
    | AnyInSegment       // [^/]*
    | OneInSegment       // [^/]
    | AnyAcross          // .*
    | OptionalDirs       // (?:.*/)?

  /** The texts one fragment matches. `.` does not match a newline, `[^/]` does. */
  predicate Accepts(f: Fragment, s: string) {
    match f
    case Literal(c) => s == [c]
    case AnyInSegment => '/' !in s
    case OneInSegment => |s| == 1 && s[0] != '/'
    case AnyAcross => '\n' !in s
    case OptionalDirs => s == "" || (s[|s| - 1] == '/' && '\n' !in s[..|s| - 1])
  }

  /** The language of an anchored concatenation. */
  predicate Matches(fragments: seq<Fragment>, input: string) {
    if fragments == [] then input == ""
    else exists k :: 0 <= k <= |input| && Accepts(fragments[0], input[..k]) && Matches(fragments[1..], input[k..])
  }

  predicate IsMeta(c: char) {
    c in "\\.+*?()|[]{}^$#&-~"
  }

  /** `regex::escape` of one character. */
  function Escape(c: char): string {
    if IsMeta(c) then ['\\', c] else [c]
  }

  function Render(f: Fragment): string {
    match f
    case Literal(c) => Escape(c)
    case AnyInSegment => "[^/]*"
    case OneInSegment => "[^/]"
    case AnyAcross => ".*"
    case OptionalDirs => "(?:.*/)?"
  }

  function RenderAll(fragments: seq<Fragment>): string {
    if fragments == [] then "" else Render(fragments[0]) + RenderAll(fragments[1..])
  }

  function RegexText(fragments: seq<Fragment>): string {
    "^" + RenderAll(fragments) + "$"
  }

  function Prepend(f: Fragment, rest: Option<seq<Fragment>>): Option<seq<Fragment>> {
    match rest
    case None => None
    case Some(fragments) => Some([f] + fragments)
  }

  /** Characters that mean something by themselves in a regular expression. */
  predicate IsSyntax(c: char) {
    c in {'\\', '.', '+', '*', '?', '(', ')', '|', '[', ']', '{', '}', '^', '$'}
  }

  /** Characters that mean themselves after a backslash; a letter or a digit would mean a class or something else. */
  predicate IsPunctuation(c: char) {
    '!' <= c <= '~' && !('0' <= c <= '9') && !('A' <= c <= 'Z') && !('a' <= c <= 'z') && c !in {'<', '>'}
  }

  /** Reads an expression body back; None outside the subset that patterns are compiled to. */
  function ParseBody(text: string): Option<seq<Fragment>> {
    if text == "" then Some([])
    else if text[0] == '\\' then
      if |text| == 1 || !IsPunctuation(text[1]) then None else Prepend(Literal(text[1]), ParseBody(text[2..]))
    else if "[^/]*" <= text then Prepend(AnyInSegment, ParseBody(text[5..]))
    else if "[^/]" <= text then Prepend(OneInSegment, ParseBody(text[4..]))
    else if ".*" <= text then Prepend(AnyAcross, ParseBody(text[2..]))
    else if "(?:.*/)?" <= text then Prepend(OptionalDirs, ParseBody(text[8..]))
    else if IsSyntax(text[0]) then None
    else Prepend(Literal(text[0]), ParseBody(text[1..]))
  }

  function ParseRegex(text: string): Option<seq<Fragment>> {
    if |text| < 2 || text[0] != '^' || text[|text| - 1] != '$' then None else ParseBody(text[1..|text| - 1])
  }

  /** Whether a generated expression accepts the whole input. */
  predicate RegexAccepts(text: string, input: string) {
    match ParseRegex(text)
    case None => false
    case Some(fragments) => Matches(fragments, input)
  }

  /** The documented wildcard semantics, read directly off the pattern. */
  predicate GlobMatches(pattern: string, input: string) {
    if pattern == "" then input == ""
    else if "**/" <= pattern then
      // an optional prefix that ends in a separator
      || GlobMatches(pattern[3..], input)
      || exists k :: 1 <= k <= |input| && input[k - 1] == '/' && GlobMatches(pattern[3..], input[k..])
    else if "**" <= pattern then
      exists k :: 0 <= k <= |input| && GlobMatches(pattern[2..], input[k..])
    else if pattern[0] == '*' then
      exists k :: 0 <= k <= |input| && '/' !in input[..k] && GlobMatches(pattern[1..], input[k..])
    else if pattern[0] == '?' then
      input != "" && input[0] != '/' && GlobMatches(pattern[1..], input[1..])
    else if pattern[0] == '\\' then
      |pattern| > 1 && input != "" && input[0] == pattern[1] && GlobMatches(pattern[2..], input[1..])
    else
      input != "" && input[0] == pattern[0] && GlobMatches(pattern[1..], input[1..])
  }

  const DANGLING_ESCAPE := "match wildcard pattern cannot end with an escape"

  function Compile(pattern: string): Option<seq<Fragment>> {
    if pattern == "" then Some([])
    else if "**/" <= pattern then Prepend(OptionalDirs, Compile(pattern[3..]))
    else if "**" <= pattern then Prepend(AnyAcross, Compile(pattern[2..]))
    else if pattern[0] == '*' then Prepend(AnyInSegment, Compile(pattern[1..]))
    else if pattern[0] == '?' then Prepend(OneInSegment, Compile(pattern[1..]))
    else if pattern[0] == '\\' then
      if |pattern| == 1 then None else Prepend(Literal(pattern[1]), Compile(pattern[2..]))
    else Prepend(Literal(pattern[0]), Compile(pattern[1..]))
  }

  function PrependAll(emitted: seq<Fragment>, rest: Option<seq<Fragment>>): Option<seq<Fragment>> {
    match rest
    case None => None
    case Some(fragments) => Some(emitted + fragments)
  }

  lemma {:induction false} EmitFragment(emitted: seq<Fragment>, f: Fragment, rest: Option<seq<Fragment>>)
    ensures PrependAll(emitted, Prepend(f, rest)) == PrependAll(emitted + [f], rest)
    ensures RenderAll(emitted + [f]) == RenderAll(emitted) + Render(f)
  {
    RenderSnoc(emitted, f);
    if rest.Some? {
      assert emitted + ([f] + rest.value) == emitted + [f] + rest.value;
    }
  }

  /** One step of the compilation, character by character. */
  lemma {:induction false} CompileStep(pattern: string)
    requires pattern != ""
    ensures Compile(pattern) ==
            if pattern[0] == '*' && |pattern| > 1 && pattern[1] == '*' then
              if |pattern| > 2 && pattern[2] == '/' then Prepend(OptionalDirs, Compile(pattern[3..]))
              else Prepend(AnyAcross, Compile(pattern[2..]))
            else if pattern[0] == '*' then Prepend(AnyInSegment, Compile(pattern[1..]))
            else if pattern[0] == '?' then Prepend(OneInSegment, Compile(pattern[1..]))
            else if pattern[0] == '\\' then
              if |pattern| == 1 then None else Prepend(Literal(pattern[1]), Compile(pattern[2..]))
            else Prepend(Literal(pattern[0]), Compile(pattern[1..]))
  {
  }

  lemma {:induction false} EverythingCompiles(emitted: seq<Fragment>)
    ensures PrependAll(emitted, Compile("")) == Some(emitted)
  {
    assert emitted + [] == emitted;
  }

  lemma {:induction false} NothingCompiles(emitted: seq<Fragment>)
    ensures PrependAll(emitted, None) == None
  {
  }

  /** Compiles a pattern in one pass over its characters. */
  method WildcardToRegex(pattern: string) returns (result: Result<string, string>)
    ensures result == match Compile(pattern) {
                        case Some(fragments) => Ok(RegexText(fragments))
                        case None => Err(DANGLING_ESCAPE)
                      }
  {
    hide RenderAll;
    hide Escape;
    hide Compile;
    hide Prepend;
    hide PrependAll;
    var regex := "^";
    var i := 0;
    ghost var emitted: seq<Fragment> := [];
    assert pattern[0..] == pattern;
    NothingEmitted(Compile(pattern));
    while i < |pattern|
      invariant 0 <= i <= |pattern|
      invariant regex == "^" + RenderAll(emitted)
      invariant Compile(pattern) == PrependAll(emitted, Compile(pattern[i..]))
    {
      var c := pattern[i];
      ghost var start, rest, next := i, pattern[i..], AnyAcross;
      CompileStep(rest);
      i := i + 1;
      if c == '*' && i < |pattern| && pattern[i] == '*' {
        i := i + 1;
        if i < |pattern| && pattern[i] == '/' {
          i := i + 1;
          regex, next := regex + "(?:.*/)?", OptionalDirs;
        } else {
          regex, next := regex + ".*", AnyAcross;
        }
      } else if c == '*' {
        regex, next := regex + "[^/]*", AnyInSegment;
      } else if c == '?' {
        regex, next := regex + "[^/]", OneInSegment;
      } else if c == '\\' {
        if i == |pattern| {
          NothingCompiles(emitted);
          return Err(DANGLING_ESCAPE);
        }
        regex, next := regex + Escape(pattern[i]), Literal(pattern[i]);
        i := i + 1;
      } else {
        regex, next := regex + Escape(c), Literal(c);
      }
      assert rest[i - start..] == pattern[i..];
      EmitFragment(emitted, next, Compile(pattern[i..]));
      emitted := emitted + [next];
    }
    assert pattern[i..] == "";
    EverythingCompiles(emitted);
    result := Ok(regex + "$");
  }

  lemma {:induction false} NothingEmitted(rest: Option<seq<Fragment>>)
    ensures RenderAll([]) == "" && PrependAll([], rest) == rest
  {
    if rest.Some? {
      assert [] + rest.value == rest.value;
    }
  }

  lemma {:induction false} RenderSnoc(fragments: seq<Fragment>, f: Fragment)
    ensures RenderAll(fragments + [f]) == RenderAll(fragments) + Render(f)
  {
    hide Render;
    if fragments == [] {
      assert ([f])[1..] == [];
      assert [] + [f] == [f];
    } else {
      RenderSnoc(fragments[1..], f);
      assert (fragments + [f])[1..] == fragments[1..] + [f];
    }
  }

  /** An escaped character is read back as itself. */
  lemma {:induction false} LiteralParses(c: char, tail: string)
    ensures ParseBody(Escape(c) + tail) == Prepend(Literal(c), ParseBody(tail))
    ensures !("*" <= Escape(c) + tail)
  {
    var text := Escape(c) + tail;
    assert text[|Escape(c)|..] == tail;
    if IsMeta(c) {
      assert text[0] == '\\' && text[1] == c;
    } else {
      assert text[0] == c;
    }
  }

  /** The text of one fragment is read back in front of a text that does not begin with a star. */
  lemma {:induction false} FragmentParses(f: Fragment, tail: string)
    requires !("*" <= tail)
    ensures ParseBody(Render(f) + tail) == Prepend(f, ParseBody(tail))
    ensures !("*" <= Render(f) + tail)
  {
    var text := Render(f) + tail;
    match f {
      case Literal(c) => LiteralParses(c, tail);
      case AnyInSegment => assert text[5..] == tail;
      case OneInSegment => assert text[4..] == tail && ("[^/]*" <= text ==> "*" <= tail);
      case AnyAcross => assert text[2..] == tail;
      case OptionalDirs => assert text[8..] == tail;
    }
  }

  /** The generated text reads back as the fragments it was rendered from. */
  lemma {:induction false} RenderedTextParses(fragments: seq<Fragment>)
    ensures ParseBody(RenderAll(fragments)) == Some(fragments)
    ensures !("*" <= RenderAll(fragments))
  {
    if fragments != [] {
      RenderedTextParses(fragments[1..]);
      FragmentParses(fragments[0], RenderAll(fragments[1..]));
      hide ParseBody;
      assert fragments == [fragments[0]] + fragments[1..];
    }
  }

  lemma {:induction false} RegexTextMeans(fragments: seq<Fragment>, input: string)
    ensures RegexAccepts(RegexText(fragments), input) <==> Matches(fragments, input)
  {
    RenderedTextParses(fragments);
    var text := RegexText(fragments);
    assert text[1..|text| - 1] == RenderAll(fragments);
  }

  /** No `**` was compiled, so the expression has no `.`. */
  predicate WithinSegments(fragments: seq<Fragment>) {
    AnyAcross !in fragments && OptionalDirs !in fragments
  }

  /** The compiler preserves meaning where `.` can match everything it is asked to. */
  lemma {:induction false} CompilationPreservesMeaning(pattern: string, fragments: seq<Fragment>, input: string)
    requires Compile(pattern) == Some(fragments)
    requires '\n' !in input || WithinSegments(fragments)
    ensures Matches(fragments, input) <==> GlobMatches(pattern, input)
    decreases |pattern|
  {
    if pattern != "" {
      var f, rest := fragments[0], fragments[1..];
      var n := if f == OptionalDirs then 3 else if f == AnyAcross || (f.Literal? && pattern[0] == '\\') then 2 else 1;
      assert Compile(pattern) == Prepend(f, Compile(pattern[n..]));
      forall k: nat | k <= |input|
        ensures Matches(rest, input[k..]) <==> GlobMatches(pattern[n..], input[k..])
      {
        CompilationPreservesMeaning(pattern[n..], rest, input[k..]);
      }
      assert fragments == [f] + rest;
      match f {
        case OptionalDirs => DirsToken(pattern, rest, input);
        case AnyAcross => AcrossToken(pattern, rest, input);
        case AnyInSegment => StarToken(pattern, rest, input);
        case OneInSegment => OneCharToken(f, rest, input);
        case Literal(_) => OneCharToken(f, rest, input);
      }
    }
  }

  /** The rest of the pattern means the rest of the expression, wherever the token ends. */
  ghost predicate Agree(pattern: string, rest: seq<Fragment>, input: string) {
    forall k: nat :: k <= |input| ==> (Matches(rest, input[k..]) <==> GlobMatches(pattern, input[k..]))
  }

  lemma {:induction false} DirsToken(pattern: string, rest: seq<Fragment>, input: string)
    requires "**/" <= pattern && '\n' !in input
    requires Agree(pattern[3..], rest, input)
    ensures Matches([OptionalDirs] + rest, input) <==> GlobMatches(pattern, input)
  {
    assert ([OptionalDirs] + rest)[1..] == rest;
    assert input[0..] == input && input[..0] == "";
    forall k | 0 <= k <= |input|
      ensures Accepts(OptionalDirs, input[..k]) <==> k == 0 || input[k - 1] == '/'
    {
    }
  }

  lemma {:induction false} AcrossToken(pattern: string, rest: seq<Fragment>, input: string)
    requires "**" <= pattern && !("**/" <= pattern) && '\n' !in input
    requires Agree(pattern[2..], rest, input)
    ensures Matches([AnyAcross] + rest, input) <==> GlobMatches(pattern, input)
  {
    assert ([AnyAcross] + rest)[1..] == rest;
    assert forall k :: 0 <= k <= |input| ==> Accepts(AnyAcross, input[..k]);
  }

  lemma {:induction false} StarToken(pattern: string, rest: seq<Fragment>, input: string)
    requires "*" <= pattern && !("**" <= pattern)
    requires Agree(pattern[1..], rest, input)
    ensures Matches([AnyInSegment] + rest, input) <==> GlobMatches(pattern, input)
  {
    assert ([AnyInSegment] + rest)[1..] == rest;
  }

  /** A fragment for one character consumes exactly one character. */
  lemma {:induction false} OneCharToken(f: Fragment, rest: seq<Fragment>, input: string)
    requires f.Literal? || f == OneInSegment
    ensures Matches([f] + rest, input) <==>
            input != "" && (if f.Literal? then input[0] == f.c else input[0] != '/') && Matches(rest, input[1..])
  {
    assert ([f] + rest)[1..] == rest;
    if input != "" {
      assert input[..1] == [input[0]];
    }
  }

  /** Compilation fails exactly on a trailing lone backslash. */
  function TrailingBackslashes(pattern: string): nat {
    if pattern == "" || pattern[|pattern| - 1] != '\\' then 0 else 1 + TrailingBackslashes(pattern[..|pattern| - 1])
  }

  lemma {:induction false} TrailingAfterToken(token: string, rest: string)
    requires token != "" && (token[|token| - 1] != '\\' || token == "\\\\")
    ensures TrailingBackslashes(token + rest) % 2 == TrailingBackslashes(rest) % 2
  {
    if rest == "" {
      assert token + rest == token;
      assert token == "\\\\" ==> token[..1] == "\\" && token[..1][..0] == "";
    } else if rest[|rest| - 1] == '\\' {
      assert (token + rest)[..|token + rest| - 1] == token + rest[..|rest| - 1];
      TrailingAfterToken(token, rest[..|rest| - 1]);
    }
  }

  lemma {:induction false} CompilesUnlessEscapeDangles(pattern: string)
    ensures Compile(pattern).None? <==> TrailingBackslashes(pattern) % 2 == 1
    decreases |pattern|
  {
    if pattern != "" {
      if pattern == "\\" {
        assert pattern[..0] == "";
      } else {
        var n := if "**/" <= pattern then 3 else if "**" <= pattern || pattern[0] == '\\' then 2 else 1;
        assert pattern == pattern[..n] + pattern[n..];
        TrailingAfterToken(pattern[..n], pattern[n..]);
        CompilesUnlessEscapeDangles(pattern[n..]);
      }
    }
  }

  /** The generated expression accepts what the documentation says, on inputs without a newline. */
  lemma {:induction false} WildcardMeansItsDocumentation(pattern: string, input: string)
    requires '\n' !in input
    ensures TrailingBackslashes(pattern) % 2 == 0 <==> Compile(pattern).Some?
    ensures Compile(pattern).Some? ==>
              (RegexAccepts(RegexText(Compile(pattern).value), input) <==> GlobMatches(pattern, input))
  {
    CompilesUnlessEscapeDangles(pattern);
    if Compile(pattern).Some? {
      RegexTextMeans(Compile(pattern).value, input);
      CompilationPreservesMeaning(pattern, Compile(pattern).value, input);
    }
  }

  /** Every pattern is faithful on this input. */
  ghost predicate FaithfulOn(input: string) {
    forall pattern :: Compile(pattern).Some? ==>
      (RegexAccepts(RegexText(Compile(pattern).value), input) <==> GlobMatches(pattern, input))
  }

  /** The newline condition is exact: with one, already `**` departs from its documentation. */
  lemma {:induction false} FaithfulExactlyWithoutNewline(input: string)
    ensures FaithfulOn(input) <==> '\n' !in input
  {
    if '\n' in input {
      var fragments := [AnyAcross];
      assert "**"[2..] == "" && Compile("") == Some([]);
      assert [AnyAcross] + [] == fragments;
      assert Compile("**") == Some(fragments);
      assert input[|input|..] == "" && input[..|input|] == input;
      assert GlobMatches("", input[|input|..]);
      assert GlobMatches("**", input);
      RegexTextMeans(fragments, input);
      assert fragments[1..] == [];
      assert !Matches(fragments, input);
    } else {
      forall pattern | Compile(pattern).Some?
        ensures RegexAccepts(RegexText(Compile(pattern).value), input) <==> GlobMatches(pattern, input)
      {
        WildcardMeansItsDocumentation(pattern, input);
      }
    }
  }

  /** A pattern without `**` is faithful on every input, newlines included. */
  lemma {:induction false} SegmentPatternsAreFaithful(pattern: string, input: string)
    requires Compile(pattern).Some? && WithinSegments(Compile(pattern).value)
    ensures RegexAccepts(RegexText(Compile(pattern).value), input) <==> GlobMatches(pattern, input)
  {
    RegexTextMeans(Compile(pattern).value, input);
    CompilationPreservesMeaning(pattern, Compile(pattern).value, input);
  }

  /** Escapes every character of a text. */
  function FullyEscaped(text: string): string {
    if text == "" then "" else ['\\', text[0]] + FullyEscaped(text[1..])
  }

  /** A fully escaped text matches exactly itself. */
  lemma {:induction false} FullyEscapedMatchesItself(text: string, input: string)
    ensures Compile(FullyEscaped(text)).Some?
    ensures RegexAccepts(RegexText(Compile(FullyEscaped(text)).value), input) <==> input == text
    ensures WithinSegments(Compile(FullyEscaped(text)).value)
    ensures GlobMatches(FullyEscaped(text), input) <==> input == text
  {
    EscapedTextMatches(text, input);
    RegexTextMeans(Compile(FullyEscaped(text)).value, input);
    CompilationPreservesMeaning(FullyEscaped(text), Compile(FullyEscaped(text)).value, input);
  }

  /** An escaped character compiles to itself. */
  lemma {:induction false} EscapedStep(text: string)
    requires text != ""
    ensures Compile(FullyEscaped(text)) == Prepend(Literal(text[0]), Compile(FullyEscaped(text[1..])))
  {
    assert FullyEscaped(text)[2..] == FullyEscaped(text[1..]);
  }

  lemma {:induction false} EscapedTextMatches(text: string, input: string)
    ensures Compile(FullyEscaped(text)).Some?
    ensures WithinSegments(Compile(FullyEscaped(text)).value)
    ensures Matches(Compile(FullyEscaped(text)).value, input) <==> input == text
  {
    if text != "" {
      var rest := text[1..];
      EscapedStep(text);
      EscapedTextMatches(rest, if input == "" then "" else input[1..]);
      hide Compile;
      hide FullyEscaped;
      OneCharToken(Literal(text[0]), Compile(FullyEscaped(rest)).value, input);
      hide Matches;
      assert input != "" ==> input == [input[0]] + input[1..];
      assert text == [text[0]] + rest;
    }
  }
}
