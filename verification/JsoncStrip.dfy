// Comment stripping for JSON with comments.
module JsoncStrip {
  import opened Prelude

  datatype ConfigError = UnterminatedBlockComment

  // The stripper, character by character

  /** The length of the line `text` begins with, without its newline. */
  function LineLength(text: string): (n: nat)
    ensures n <= |text| && '\n' !in text[..n] && (n < |text| ==> text[n] == '\n')
  {
    if text == "" || text[0] == '\n' then 0 else 1 + LineLength(text[1..])
  }

  /** The length of what ends with the first "*" followed by "/". */
  function BlockLength(text: string): (n: Option<nat>)
    ensures n.Some? ==> 2 <= n.value <= |text|
  {
    if |text| < 2 then None
    else if text[0] == '*' && text[1] == '/' then Some(2)
    else match BlockLength(text[1..]) case Some(n) => Some(n + 1) case None => None
  }

  function Prepend(text: string, result: Result<string, ConfigError>): Result<string, ConfigError> {
    match result case Ok(rest) => Ok(text + rest) case Err(error) => Err(error)
  }

  predicate StartsLineComment(text: string) {
    |text| >= 2 && text[0] == '/' && text[1] == '/'
  }

  predicate StartsBlockComment(text: string) {
    |text| >= 2 && text[0] == '/' && text[1] == '*'
  }

  function Strip(text: string, inString: bool, escaped: bool): Result<string, ConfigError>
    decreases |text|
  {
    if text == "" then Ok("")
    else if inString then
      Prepend([text[0]], Strip(text[1..], escaped || text[0] != '"', !escaped && text[0] == '\\'))
    else if text[0] == '"' then Prepend("\"", Strip(text[1..], true, escaped))
    else if StartsLineComment(text) then
      var n := 2 + LineLength(text[2..]);
      if n < |text| then Prepend("\n", Strip(text[n + 1..], false, escaped)) else Ok("")
    else if StartsBlockComment(text) then
      match BlockLength(text[2..])
      case None => Err(UnterminatedBlockComment)
      case Some(n) => Strip(text[2 + n..], false, escaped)
    else Prepend([text[0]], Strip(text[1..], false, escaped))
  }

  lemma {:induction false} PrependTwice(a: string, b: string, result: Result<string, ConfigError>)
    ensures Prepend(a, Prepend(b, result)) == Prepend(a + b, result)
  {
    if result.Ok? {
      assert a + (b + result.value) == (a + b) + result.value;
    }
  }

  lemma {:induction false} PrependNothing(result: Result<string, ConfigError>)
    ensures Prepend("", result) == result
  {
    if result.Ok? {
      assert "" + result.value == result.value;
    }
  }

  /** Consumes a line comment whose second slash is at `start`, up to and including its newline. */
  method ConsumeLineComment(input: string, start: nat) returns (next: nat, output: string)
    requires start < |input|
    ensures var n := start + 1 + LineLength(input[start + 1..]);
            if n < |input| then next == n + 1 && output == "\n" else next == n && output == ""
  {
    next, output := start + 1, "";
    while next < |input|
      invariant start + 1 <= next <= |input|
      invariant next + LineLength(input[next..]) == start + 1 + LineLength(input[start + 1..])
    {
      assert input[next..][1..] == input[next + 1..];
      if input[next] == '\n' {
        return next + 1, "\n";
      }
      next := next + 1;
    }
  }

  /** Consumes a block comment whose star is at `start`. */
  method ConsumeBlockComment(input: string, start: nat) returns (next: Result<nat, ConfigError>)
    requires start < |input|
    ensures next == match BlockLength(input[start + 1..])
                    case Some(n) => Ok(start + 1 + n)
                    case None => Err(UnterminatedBlockComment)
  {
    var previous, i := '\0', start + 1;
    ghost var length := BlockLength(input[start + 1..]);
    while i < |input|
      invariant start + 1 <= i <= |input|
      invariant i == start + 1 ==> previous == '\0'
      invariant i > start + 1 ==> previous == input[i - 1]
      invariant i == start + 1 || From(BlockLength(input[i - 1..]), i - 1) == From(length, start + 1)
    {
      if i > start + 1 {
        assert input[i - 1..][1..] == input[i..];
      }
      if previous == '*' && input[i] == '/' {
        return Ok(i + 1);
      }
      previous, i := input[i], i + 1;
    }
    return Err(UnterminatedBlockComment);
  }

  function From(length: Option<nat>, start: nat): Option<nat> {
    match length case Some(n) => Some(start + n) case None => None
  }

  method StripJsoncComments(input: string) returns (result: Result<string, ConfigError>)
    ensures result == Strip(input, false, false)
  {
    var i, output, inString, escaped := 0, "", false, false;
    assert input[0..] == input;
    PrependNothing(Strip(input, inString, escaped));
    while i < |input|
      invariant i <= |input|
      invariant Strip(input, false, false) == Prepend(output, Strip(input[i..], inString, escaped))
    {
      var c, rest := input[i], input[i..];
      assert rest[1..] == input[i + 1..];
      if inString {
        PrependTwice(output, [c], Strip(rest[1..], escaped || c != '"', !escaped && c == '\\'));
        output := output + [c];
        if escaped {
          escaped := false;
        } else if c == '\\' {
          escaped := true;
        } else if c == '"' {
          inString := false;
        }
        i := i + 1;
      } else if c == '"' {
        PrependTwice(output, "\"", Strip(rest[1..], true, escaped));
        inString, output, i := true, output + [c], i + 1;
      } else if c == '/' && i + 1 < |input| && input[i + 1] == '/' {
        assert rest[2..] == input[i + 2..];
        var next, newline := ConsumeLineComment(input, i + 1);
        assert rest[next - i..] == input[next..];
        PrependTwice(output, newline, Strip(input[next..], false, escaped));
        PrependNothing(Strip(input[next..], false, escaped));
        i, output := next, output + newline;
      } else if c == '/' && i + 1 < |input| && input[i + 1] == '*' {
        assert rest[2..] == input[i + 2..];
        var next := ConsumeBlockComment(input, i + 1);
        if next.Err? {
          return Err(next.error);
        }
        assert rest[next.value - i..] == input[next.value..];
        i := next.value;
      } else {
        PrependTwice(output, [c], Strip(rest[1..], false, escaped));
        output, i := output + [c], i + 1;
      }
    }
    assert output + "" == output;
    return Ok(output);
  }

  // The grammar

  /** A piece of input. An open literal or line comment is ended by the end of the input. */
  datatype Token =
    | Plain(character: char)
    | Literal(body: string, closed: bool)
    | LineComment(body: string, closed: bool)
    | BlockComment(body: string)

  function Raw(token: Token): (text: string)
    ensures |text| > 0
  {
    match token
    case Plain(character) => [character]
    case Literal(body, closed) => "\"" + body + (if closed then "\"" else "")
    case LineComment(body, closed) => "//" + body + (if closed then "\n" else "")
    case BlockComment(body) => "/*" + body + "*/"
  }

  /** Comments go, except for the newline of a line comment. */
  function Kept(token: Token): string {
    match token
    case Plain(_) => Raw(token)
    case Literal(_, _) => Raw(token)
    case LineComment(_, closed) => if closed then "\n" else ""
    case BlockComment(_) => ""
  }

  function RawText(tokens: seq<Token>): string {
    if tokens == [] then "" else Raw(tokens[0]) + RawText(tokens[1..])
  }

  function KeptText(tokens: seq<Token>): string {
    if tokens == [] then "" else Kept(tokens[0]) + KeptText(tokens[1..])
  }

  /** Characters and escapes between the quotes of a literal. */
  predicate LiteralBody(body: string) {
    || body == ""
    || (body[0] == '\\' && |body| >= 2 && LiteralBody(body[2..]))
    || (body[0] != '\\' && body[0] != '"' && LiteralBody(body[1..]))
  }

  /** The only "*" followed by "/" is the one that closes the comment. */
  predicate BlockBody(body: string) {
    forall i :: 0 <= i < |body| - 1 && body[i] == '*' ==> body[i + 1] != '/'
  }

  predicate TokenOk(token: Token) {
    match token
    case Plain(character) => character != '"'
    case Literal(body, closed) =>
      LiteralBody(body) || (!closed && body != "" && body[|body| - 1] == '\\' && LiteralBody(body[..|body| - 1]))
    case LineComment(body, _) => '\n' !in body
    case BlockComment(body) => BlockBody(body)
  }

  predicate Open(token: Token) {
    (token.Literal? || token.LineComment?) && !token.closed
  }

  /** The text `rest` may follow the token: a plain slash begins no comment, and nothing follows an open token. */
  predicate Precedes(token: Token, rest: string) {
    && TokenOk(token)
    && (Open(token) ==> rest == "")
    && (token == Plain('/') ==> rest == "" || (rest[0] != '/' && rest[0] != '*'))
  }

  /** The tokens of what comes before `tail`. */
  predicate WellFormed(tokens: seq<Token>, tail: string) {
    tokens != [] ==> Precedes(tokens[0], RawText(tokens[1..]) + tail) && WellFormed(tokens[1..], tail)
  }

  /** A block comment that is never closed. */
  predicate Unterminated(tail: string) {
    StartsBlockComment(tail) && forall i :: 2 <= i < |tail| - 1 && tail[i] == '*' ==> tail[i + 1] != '/'
  }

  lemma {:induction false} LineLengthIs(body: string, rest: string)
    requires '\n' !in body && (rest == "" || rest[0] == '\n')
    ensures LineLength(body + rest) == |body|
  {
    if body == "" {
      assert body + rest == rest;
    } else {
      assert (body + rest)[1..] == body[1..] + rest;
      assert body[0] in body;
      LineLengthIs(body[1..], rest);
    }
  }

  lemma {:induction false} BlockLengthIs(body: string, rest: string)
    requires BlockBody(body)
    ensures BlockLength(body + "*/" + rest) == Some(|body| + 2)
  {
    var text := body + "*/" + rest;
    if body != "" {
      assert text[1..] == body[1..] + "*/" + rest;
      assert !(text[0] == '*' && text[1] == '/');
      BlockLengthIs(body[1..], rest);
    }
  }

  /** The block comment ends where the first "*" followed by "/" ends, if there is one. */
  lemma {:induction false} BlockLengthMeaning(text: string)
    ensures BlockLength(text).Some? ==>
              var n := BlockLength(text).value;
              text[n - 2] == '*' && text[n - 1] == '/' && BlockBody(text[..n - 2])
    ensures BlockLength(text).None? <==> forall i :: 0 <= i < |text| - 1 && text[i] == '*' ==> text[i + 1] != '/'
  {
    if |text| >= 2 && !(text[0] == '*' && text[1] == '/') {
      BlockLengthMeaning(text[1..]);
      assert forall i :: 1 <= i < |text| ==> text[i] == text[1..][i - 1];
      if BlockLength(text).Some? {
        var n := BlockLength(text).value;
        assert text[1..][..n - 3] == text[..n - 2][1..];
      } else {
        forall i | 0 <= i < |text| - 1 && text[i] == '*'
          ensures text[i + 1] != '/'
        {
          if i > 0 {
            assert text[1..][i - 1] == '*' && text[1..][i] == text[i + 1];
          }
        }
      }
    }
  }

  lemma {:induction false} StripQuoted(c: char, rest: string, escaped: bool)
    ensures Strip([c] + rest, true, escaped) == Prepend([c], Strip(rest, escaped || c != '"', !escaped && c == '\\'))
  {
    assert ([c] + rest)[1..] == rest;
  }

  lemma {:induction false} StripOpeningQuote(rest: string)
    ensures Strip("\"" + rest, false, false) == Prepend("\"", Strip(rest, true, false))
  {
    assert ("\"" + rest)[1..] == rest;
  }

  lemma {:induction false} StripBody(body: string, rest: string)
    requires LiteralBody(body)
    ensures Strip(body + rest, true, false) == Prepend(body, Strip(rest, true, false))
  {
    hide Strip;
    if body == "" {
      assert body + rest == rest;
      PrependNothing(Strip(rest, true, false));
    } else if body[0] == '\\' {
      StripBody(body[2..], rest);
      StripEscape(body[1], body[2..], rest);
      assert ['\\', body[1]] + body[2..] == body;
    } else {
      StripBody(body[1..], rest);
      StripQuoted(body[0], body[1..] + rest, false);
      assert [body[0]] + (body[1..] + rest) == body + rest;
      PrependTwice([body[0]], body[1..], Strip(rest, true, false));
      assert [body[0]] + body[1..] == body;
    }
  }

  lemma {:induction false} StripEscape(c: char, body: string, rest: string)
    requires Strip(body + rest, true, false) == Prepend(body, Strip(rest, true, false))
    ensures Strip(['\\', c] + body + rest, true, false) == Prepend(['\\', c] + body, Strip(rest, true, false))
  {
    StripQuoted('\\', [c] + (body + rest), false);
    StripQuoted(c, body + rest, true);
    hide Strip;
    assert ['\\'] + ([c] + (body + rest)) == ['\\', c] + body + rest;
    PrependTwice([c], body, Strip(rest, true, false));
    PrependTwice(['\\'], [c] + body, Strip(rest, true, false));
    assert ['\\'] + ([c] + body) == ['\\', c] + body;
  }

  lemma {:induction false} StripClosedLiteral(body: string, rest: string)
    requires LiteralBody(body)
    ensures Strip("\"" + body + "\"" + rest, false, false) == Prepend("\"" + body + "\"", Strip(rest, false, false))
  {
    hide Strip;
    var end := "\"" + rest;
    StripBody(body, end);
    hide LiteralBody;
    StripOpeningQuote(body + end);
    StripQuoted('"', rest, false);
    PrependTwice(body, "\"", Strip(rest, false, false));
    PrependTwice("\"", body + "\"", Strip(rest, false, false));
    hide Prepend;
    assert "\"" + (body + "\"") == "\"" + body + "\"";
    assert "\"" + (body + end) == "\"" + body + "\"" + rest;
  }

  lemma {:induction false} StripOpenLiteral(body: string)
    requires TokenOk(Literal(body, false))
    ensures Strip("\"" + body, false, false) == Ok("\"" + body)
  {
    StripOpeningQuote(body);
    if LiteralBody(body) {
      StripBody(body, "");
      assert body + "" == body;
    } else {
      var start := body[..|body| - 1];
      StripBody(start, "\\");
      assert start + "\\" == body;
      StripQuoted('\\', "", false);
      assert ['\\'] + "" == "\\";
    }
  }

  lemma {:induction false} StripLine(body: string, rest: string)
    requires '\n' !in body
    ensures Strip("//" + body, false, false) == Ok("")
    ensures Strip("//" + body + "\n" + rest, false, false) == Prepend("\n", Strip(rest, false, false))
  {
    LineLengthIs(body, "");
    LineLengthIs(body, "\n" + rest);
    hide LineLength;
    assert ("//" + body)[2..] == body == body + "";
    var text := "//" + body + "\n" + rest;
    assert text[2..] == body + ("\n" + rest);
    assert text[2 + |body| + 1..] == rest;
  }

  lemma {:induction false} StripBlock(body: string, rest: string)
    requires BlockBody(body)
    ensures Strip("/*" + body + "*/" + rest, false, false) == Strip(rest, false, false)
  {
    BlockLengthIs(body, rest);
    hide BlockLength;
    var text := "/*" + body + "*/" + rest;
    assert text[2..] == body + "*/" + rest;
    assert text[2 + (|body| + 2)..] == rest;
  }

  lemma {:induction false} StripToken(token: Token, rest: string)
    requires Precedes(token, rest)
    ensures Strip(Raw(token) + rest, false, false) == Prepend(Kept(token), Strip(rest, false, false))
  {
    var text := Raw(token) + rest;
    PrependNothing(Strip(rest, false, false));
    match token
    case Plain(character) =>
      assert text[1..] == rest;
    case Literal(body, closed) =>
      if closed {
        StripClosedLiteral(body, rest);
      } else {
        StripOpenLiteral(body);
        assert "\"" + body + "" + rest == "\"" + body == "\"" + body + "";
        assert Strip(rest, false, false) == Ok("");
      }
      hide Strip;
    case LineComment(body, closed) =>
      StripLine(body, rest);
      assert Strip("", false, false) == Ok("");
      hide Strip;
      assert !closed ==> text == "//" + body;
    case BlockComment(body) =>
      StripBlock(body, rest);
      hide Strip;
  }

  /** Stripping removes exactly the comments of a well-formed token sequence. */
  lemma {:induction false} StripTokens(tokens: seq<Token>, tail: string)
    requires WellFormed(tokens, tail)
    ensures Strip(RawText(tokens) + tail, false, false) == Prepend(KeptText(tokens), Strip(tail, false, false))
  {
    hide Strip;
    hide Precedes;
    hide Raw;
    hide Kept;
    if tokens == [] {
      assert RawText(tokens) + tail == tail;
      PrependNothing(Strip(tail, false, false));
    } else {
      var rest := RawText(tokens[1..]) + tail;
      StripTokens(tokens[1..], tail);
      StripToken(tokens[0], rest);
      assert RawText(tokens) + tail == Raw(tokens[0]) + rest;
      PrependTwice(Kept(tokens[0]), KeptText(tokens[1..]), Strip(tail, false, false));
    }
  }

  /** An escape, or a character that is neither a backslash nor a quote. */
  predicate LiteralItem(item: string) {
    (|item| == 2 && item[0] == '\\') || (|item| == 1 && item[0] != '\\' && item[0] != '"')
  }

  lemma {:induction false} LongerBody(item: string, body: string)
    requires LiteralItem(item) && LiteralBody(body)
    ensures LiteralBody(item + body)
  {
    assert (item + body)[|item|..] == body;
  }

  lemma {:induction false} LongerLiteral(item: string, body: string, closed: bool)
    requires LiteralItem(item) && TokenOk(Literal(body, closed))
    ensures TokenOk(Literal(item + body, closed))
  {
    if LiteralBody(body) {
      LongerBody(item, body);
    } else {
      LongerBody(item, body[..|body| - 1]);
      hide LiteralBody;
      assert (item + body)[..|item + body| - 1] == item + body[..|body| - 1];
    }
  }

  lemma {:induction false} LiteralEnd(text: string) returns (body: string, closed: bool, rest: string)
    ensures text == body + (if closed then "\"" else "") + rest
    ensures TokenOk(Literal(body, closed)) && (!closed ==> rest == "")
  {
    if text == "" {
      body, closed, rest := "", false, "";
    } else if text[0] == '"' {
      body, closed, rest := "", true, text[1..];
    } else if text == "\\" {
      body, closed, rest := "\\", false, "";
      assert body[..0] == "";
    } else {
      hide TokenOk;
      var n := if text[0] == '\\' then 2 else 1;
      var more;
      more, closed, rest := LiteralEnd(text[n..]);
      body := text[..n] + more;
      LongerLiteral(text[..n], more, closed);
    }
  }

  lemma {:induction false} FirstLine(text: string) returns (token: Token, rest: string)
    requires StartsLineComment(text)
    ensures text == Raw(token) + rest && Precedes(token, rest)
  {
    var line := text[2..];
    var n := LineLength(line);
    hide LineLength;
    var closed := n < |line|;
    token, rest := LineComment(line[..n], closed), if closed then line[n + 1..] else "";
    assert line == line[..n] + (if closed then "\n" else "") + rest;
    assert text == "//" + line;
  }

  lemma {:induction false} FirstToken(text: string) returns (token: Token, rest: string)
    requires text != "" && !Unterminated(text)
    ensures text == Raw(token) + rest && Precedes(token, rest)
  {
    if text[0] == '"' {
      hide TokenOk;
      var body, closed;
      body, closed, rest := LiteralEnd(text[1..]);
      token := Literal(body, closed);
    } else if StartsLineComment(text) {
      token, rest := FirstLine(text);
    } else if StartsBlockComment(text) {
      var n := BlockCommentEnd(text);
      token, rest := BlockComment(text[2..n]), text[n + 2..];
    } else {
      token, rest := Plain(text[0]), text[1..];
    }
  }

  lemma {:induction false} BlockCommentEnd(text: string) returns (n: nat)
    requires StartsBlockComment(text) && !Unterminated(text)
    ensures 2 <= n <= |text| - 2 && BlockBody(text[2..n]) && text[n] == '*' && text[n + 1] == '/'
  {
    UnterminatedMeaning(text);
    BlockLengthMeaning(text[2..]);
    n := BlockLength(text[2..]).value;
    hide BlockLength;
    assert text[2..][..n - 2] == text[2..n];
  }

  lemma {:induction false} UnterminatedMeaning(text: string)
    requires StartsBlockComment(text)
    ensures Unterminated(text) <==> BlockLength(text[2..]).None?
  {
    var inside := text[2..];
    BlockLengthMeaning(inside);
    hide BlockLength;
    assert forall i :: 0 <= i < |inside| ==> inside[i] == text[i + 2];
    if BlockLength(inside).None? {
      forall i | 2 <= i < |text| - 1 && text[i] == '*'
        ensures text[i + 1] != '/'
      {
        assert inside[i - 2] == '*' && inside[i - 1] == text[i + 1];
      }
    }
  }

  /** Every input is well-formed tokens, followed by nothing or by a block comment that is never closed. */
  lemma {:induction false} EveryInputHasTokens(text: string) returns (tokens: seq<Token>, tail: string)
    ensures WellFormed(tokens, tail) && text == RawText(tokens) + tail && (tail == "" || Unterminated(tail))
    decreases |text|
  {
    if text == "" || Unterminated(text) {
      tokens, tail := [], text;
      assert RawText(tokens) + tail == tail;
    } else {
      hide Unterminated;
      hide Precedes;
      hide Raw;
      var token, rest := FirstToken(text);
      var others;
      others, tail := EveryInputHasTokens(rest);
      tokens := [token] + others;
      assert tokens[1..] == others;
      assert Raw(token) + (RawText(others) + tail) == (Raw(token) + RawText(others)) + tail;
    }
  }

  /** The output is exactly what the tokens keep; stripping fails exactly when the input ends in a block comment
      that is never closed. */
  lemma {:induction false} StripsExactlyTheComments(text: string) returns (tokens: seq<Token>, tail: string)
    ensures WellFormed(tokens, tail) && text == RawText(tokens) + tail && (tail == "" || Unterminated(tail))
    ensures Strip(text, false, false) == if tail == "" then Ok(KeptText(tokens)) else Err(UnterminatedBlockComment)
  {
    tokens, tail := EveryInputHasTokens(text);
    StripTokens(tokens, tail);
    hide WellFormed;
    hide RawText;
    hide KeptText;
    if tail != "" {
      UnterminatedMeaning(tail);
    } else {
      assert KeptText(tokens) + "" == KeptText(tokens);
    }
  }

  /** What is left of the tokens, as tokens. */
  function KeptTokens(tokens: seq<Token>): seq<Token> {
    if tokens == [] then []
    else
      (match tokens[0]
       case LineComment(_, closed) => if closed then [Plain('\n')] else []
       case BlockComment(_) => []
       case other => [other])
      + KeptTokens(tokens[1..])
  }

  lemma {:induction false} KeptTokensAreWellFormed(tokens: seq<Token>)
    requires WellFormed(tokens, "")
    ensures WellFormed(KeptTokens(tokens), "")
    ensures RawText(KeptTokens(tokens)) == KeptText(tokens) == KeptText(KeptTokens(tokens))
  {
    if tokens != [] {
      var kept, rest := KeptTokens(tokens), KeptTokens(tokens[1..]);
      KeptTokensAreWellFormed(tokens[1..]);
      if kept != rest {
        assert kept[1..] == rest;
        assert RawText(tokens[1..]) + "" == RawText(tokens[1..]);
        assert RawText(rest) + "" == RawText(rest);
        if tokens[0] == Plain('/') && tokens[1..] != [] {
          assert Raw(tokens[1])[0] == RawText(tokens[1..])[0];
          assert rest[0] == tokens[1];
        }
      }
    }
  }

  /** Stripping is idempotent. */
  lemma {:induction false} StrippingIsIdempotent(text: string)
    requires Strip(text, false, false).Ok?
    ensures Strip(Strip(text, false, false).value, false, false) == Strip(text, false, false)
  {
    var tokens, tail := StripsExactlyTheComments(text);
    KeptTokensAreWellFormed(tokens);
    StripTokens(KeptTokens(tokens), "");
    var output := KeptText(tokens);
    assert RawText(KeptTokens(tokens)) + "" == output && output + "" == output;
  }
}
