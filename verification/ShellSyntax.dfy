/**
 * What the restricted shell syntax means, stated apart from the scanners that
 * read it: one quote/escape automaton, the decomposition of a command line at
 * the bars that stand outside quotes and escapes, and the words of a stage.
 */
module ShellSyntax {
  import opened Basics
  import opened Text

  datatype Quote = Bare | Single | Double

  /** The state before a character; escaped: the previous character was a live backslash. */
  datatype Mode = Mode(quote: Quote, escaped: bool)

  const START := Mode(Bare, false)

  function Step(m: Mode, c: char): Mode {
    if m.escaped then m.(escaped := false)
    else if c == '\\' && m.quote != Single then m.(escaped := true)
    else if c == '\'' && m.quote != Double then m.(quote := if m.quote == Single then Bare else Single)
    else if c == '"' && m.quote != Single then m.(quote := if m.quote == Double then Bare else Double)
    else m
  }

  function After(m: Mode, s: string): Mode
    decreases s
  {
    if s == "" then m else After(Step(m, s[0]), s[1..])
  }

  /** The state of the automaton just before position i. */
  function StateAt(s: string, i: nat): Mode
    requires i <= |s|
  {
    After(START, s[..i])
  }

  /** Operators rejected wherever they stand unquoted and unescaped. */
  predicate Forbidden(c: char) {
    c in {'&', ';', '<', '>', '`', '(', ')', '{', '}'}
  }

  predicate LiveBarAt(s: string, i: nat)
    requires i < |s|
  {
    s[i] == '|' && StateAt(s, i) == START
  }

  predicate LiveForbiddenAt(s: string, i: nat)
    requires i < |s|
  {
    Forbidden(s[i]) && StateAt(s, i) == START
  }

  // ---------------------------------------------------------------- stages

  function Glue(prefix: string, pieces: seq<string>): seq<string>
    requires pieces != []
  {
    [prefix + pieces[0]] + pieces[1..]
  }

  /** The text between live bars, for a scan that starts in state m. */
  function Pieces(m: Mode, s: string): (ps: seq<string>)
    ensures ps != []
    decreases s
  {
    if s == "" then [""]
    else if m == START && s[0] == '|' then [""] + Pieces(START, s[1..])
    else Glue([s[0]], Pieces(Step(m, s[0]), s[1..]))
  }

  /** The first reason, in reading order, for which a command line is refused.
      blank: everything since the last cut was white space. */
  function Fault(m: Mode, blank: bool, s: string): Option<string>
    decreases s
  {
    if s == "" then
      if m.quote != Bare then Some("unterminated quoted string")
      else if blank then Some("shell command is empty")
      else None
    else if m == START && s[0] == '|' then
      if |s| > 1 && s[1] == '|' then Some("operator || is not supported")
      else if blank then Some("shell stage is empty")
      else Fault(START, true, s[1..])
    else if m == START && s[0] == '&' then Some("operator & is not supported")
    else if m == START && Forbidden(s[0]) then Some("shell syntax is not supported")
    else if m == START && s[0] == '$' && |s| > 1 && s[1] == '(' then Some("command substitution is not supported")
    else Fault(Step(m, s[0]), blank && IsWhitespace(s[0]), s[1..])
  }

  function TrimAll(pieces: seq<string>): (ts: seq<string>)
    ensures |ts| == |pieces|
    ensures forall k :: 0 <= k < |ts| ==> ts[k] == Trim(pieces[k])
  {
    if pieces == [] then [] else [Trim(pieces[0])] + TrimAll(pieces[1..])
  }

  function InvalidSyntax(message: string): CapabilityError {
    CapabilityError("invalid_params", message)
  }

  /** The stages of a command line, or the error that refuses it. */
  function Split(s: string): Result<seq<string>, CapabilityError> {
    match Fault(START, true, s)
    case Some(message) => Err(InvalidSyntax(message))
    case None => Ok(TrimAll(Pieces(START, s)))
  }

  // ----------------------------------------------------------------- words

  /** What each character contributes: a literal character, a word break (None), or nothing. */
  function Tokens(m: Mode, s: string): seq<Option<char>>
    decreases s
  {
    if s == "" then []
    else
      var c := s[0];
      var rest := Tokens(Step(m, c), s[1..]);
      if m.escaped then [Some(c)] + rest
      else if Step(m, c) != m then rest
      else if IsWhitespace(c) && m.quote == Bare then [None] + rest
      else [Some(c)] + rest
  }

  function Emit(word: string): seq<string> {
    if word == "" then [] else [word]
  }

  /** The maximal runs of literals, empty ones dropped; word: the run in progress. */
  function Fields(word: string, tokens: seq<Option<char>>): seq<string>
    decreases tokens
  {
    if tokens == [] then Emit(word)
    else
      match tokens[0]
      case None => Emit(word) + Fields("", tokens[1..])
      case Some(c) => Fields(word + [c], tokens[1..])
  }

  /** The words of one stage. */
  function Words(stage: string): Result<seq<string>, CapabilityError> {
    if After(START, stage).quote != Bare then Err(InvalidSyntax("unterminated quoted string"))
    else Ok(Fields("", Tokens(START, stage)))
  }

  // -------------------------------------------------------------- pipeline

  /** The command name of one stage. */
  function StageCommand(stage: string): Result<string, CapabilityError> {
    match Words(stage)
    case Err(e) => Err(e)
    case Ok(words) =>
      if words == [] then Err(InvalidSyntax("shell stage is empty"))
      else if '=' in words[0] then Err(InvalidSyntax("leading environment assignments are not supported"))
      else Ok(words[0])
  }

  /** The command names of all stages, or the error of the first stage without one. */
  function StageCommands(stages: seq<string>): Result<seq<string>, CapabilityError> {
    if stages == [] then Ok([])
    else
      match StageCommand(stages[0])
      case Err(e) => Err(e)
      case Ok(command) =>
        match StageCommands(stages[1..])
        case Err(e) => Err(e)
        case Ok(commands) => Ok([command] + commands)
  }

  function Parse(input: string): Result<seq<string>, CapabilityError> {
    match Split(input)
    case Err(e) => Err(e)
    case Ok(stages) => StageCommands(stages)
  }

  // --------------------------------------------------- facts about the scan

  lemma {:induction false} AfterConcat(m: Mode, a: string, b: string)
    ensures After(m, a + b) == After(After(m, a), b)
    decreases a
  {
    if a == "" {
      assert a + b == b;
    } else {
      assert (a + b)[1..] == a[1..] + b;
      AfterConcat(Step(m, a[0]), a[1..], b);
    }
  }

  /** White space never opens or closes a quote. */
  lemma {:induction false} BlankKeepsQuote(m: Mode, s: string)
    requires Blank(s)
    ensures After(m, s).quote == m.quote
    ensures !m.escaped || s != "" ==> After(m, s) == Mode(m.quote, false)
    decreases s
  {
    if s != "" {
      assert s[0] != '\\' && s[0] != '\'' && s[0] != '"';
      BlankKeepsQuote(Step(m, s[0]), s[1..]);
    }
  }

  /** No bar and no rejected operator in a live position. */
  predicate Clean(m: Mode, s: string)
    decreases s
  {
    s == "" || (!(m == START && (s[0] == '|' || Forbidden(s[0]))) && Clean(Step(m, s[0]), s[1..]))
  }

  lemma {:induction false} CleanConcat(m: Mode, a: string, b: string)
    ensures Clean(m, a + b) <==> Clean(m, a) && Clean(After(m, a), b)
    decreases a
  {
    if a == "" {
      assert a + b == b;
    } else {
      assert (a + b)[1..] == a[1..] + b;
      CleanConcat(Step(m, a[0]), a[1..], b);
    }
  }

  lemma {:induction false} BlankIsClean(m: Mode, s: string)
    requires Blank(s)
    ensures Clean(m, s)
    decreases s
  {
    if s != "" {
      assert s[0] != '|' && !Forbidden(s[0]);
      BlankIsClean(Step(m, s[0]), s[1..]);
    }
  }

  /** Clean text is carried whole into the piece it stands in. */
  lemma {:induction false} PiecesAfterClean(m: Mode, t: string, rest: string)
    requires Clean(m, t)
    ensures Pieces(m, t + rest) == Glue(t, Pieces(After(m, t), rest))
    decreases t
  {
    if t == "" {
      assert t + rest == rest;
      var ps := Pieces(m, rest);
      assert "" + ps[0] == ps[0];
      assert ps == [ps[0]] + ps[1..];
    } else {
      assert (t + rest)[1..] == t[1..] + rest;
      PiecesAfterClean(Step(m, t[0]), t[1..], rest);
      var ps := Pieces(After(m, t), rest);
      assert [t[0]] + (t[1..] + ps[0]) == t + ps[0];
    }
  }

  lemma {:induction false} FaultAfterClean(m: Mode, blank: bool, t: string, rest: string)
    requires Clean(m, t)
    requires rest == "" || rest[0] != '('
    ensures Fault(m, blank, t + rest) == Fault(After(m, t), blank && Blank(t), rest)
    decreases t
  {
    if t == "" {
      assert t + rest == rest;
    } else {
      assert (t + rest)[1..] == t[1..] + rest;
      assert Blank(t) <==> IsWhitespace(t[0]) && Blank(t[1..]) by {
        assert t == [t[0]] + t[1..];
      }
      if m == START && t[0] == '$' && |t| > 1 {
        assert t[1..][0] == t[1];
      }
      FaultAfterClean(Step(m, t[0]), blank && IsWhitespace(t[0]), t[1..], rest);
    }
  }
}
