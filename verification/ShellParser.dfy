/** The two scanners and the parser built on them, proved against ShellSyntax. */
module ShellParser {
  import opened Basics
  import opened Text
  import opened ShellSyntax

  /** The automaton state the two quote flags of a scanner stand for. */
  function FlagMode(inSingle: bool, inDouble: bool): Mode {
    Mode(if inSingle then Single else if inDouble then Double else Bare, false)
  }

  /** Both forms of a scan, one and two characters further. */
  lemma Unroll(m: Mode, s: string, i: nat)
    requires i < |s|
    ensures s[i..][0] == s[i]
    ensures s[i..][1..] == s[i + 1..]
    ensures i + 1 < |s| ==> s[i..][1] == s[i + 1] && s[i + 1..][1..] == s[i + 2..]
  {
  }

  lemma GlueGlue(a: string, b: string, pieces: seq<string>)
    requires pieces != []
    ensures Glue(a, Glue(b, pieces)) == Glue(a + b, pieces)
  {
    assert a + (b + pieces[0]) == (a + b) + pieces[0];
  }

  /** What a stage scan still has to prove when it stands at position i. */
  ghost predicate StageScan(input: string, i: nat, m: Mode, stages: seq<string>, current: string) {
    && i <= |input|
    && Fault(START, true, input) == Fault(m, Blank(current), input[i..])
    && TrimAll(Pieces(START, input)) == stages + TrimAll(Glue(current, Pieces(m, input[i..])))
  }

  /** Reading a character that is no cut keeps the stage scan. */
  lemma StageScanReads(input: string, i: nat, m: Mode, stages: seq<string>, current: string)
    requires i < |input|
    requires StageScan(input, i, m, stages, current)
    requires m == START ==> input[i] != '|' && !Forbidden(input[i])
    requires m == START && input[i] == '$' ==> !(i + 1 < |input| && input[i + 1] == '(')
    ensures StageScan(input, i + 1, Step(m, input[i]), stages, current + [input[i]])
  {
    var c := input[i];
    Unroll(m, input, i);
    GlueGlue(current, [c], Pieces(Step(m, c), input[i + 1..]));
    assert Blank(current + [c]) <==> Blank(current) && IsWhitespace(c) by {
      assert (current + [c])[|current|] == c;
      assert forall k :: 0 <= k < |current| ==> (current + [c])[k] == current[k];
    }
  }

  lemma CutAtBar(s: string)
    requires s != "" && s[0] == '|'
    ensures Pieces(START, s) == [""] + Pieces(START, s[1..])
    ensures !(|s| > 1 && s[1] == '|') ==> Fault(START, false, s) == Fault(START, true, s[1..])
  {
  }

  lemma TrimAllCuts(current: string, pieces: seq<string>)
    requires pieces != []
    ensures TrimAll(Glue(current, [""] + pieces)) == [Trim(current)] + TrimAll(Glue("", pieces))
  {
    var glued := Glue(current, [""] + pieces);
    assert current + "" == current;
    assert glued == [current] + pieces;
    assert glued[1..] == pieces;
    assert "" + pieces[0] == pieces[0];
    assert Glue("", pieces) == pieces;
  }

  lemma SeqAssociative(a: seq<string>, b: seq<string>, c: seq<string>)
    ensures a + (b + c) == a + b + c
  {
  }

  /** A live bar closes the stage in progress. */
  lemma StageScanCuts(input: string, i: nat, stages: seq<string>, current: string)
    requires i < |input| && input[i] == '|'
    requires !(i + 1 < |input| && input[i + 1] == '|')
    requires StageScan(input, i, START, stages, current)
    requires !Blank(current)
    ensures StageScan(input, i + 1, START, stages + [Trim(current)], "")
  {
    Unroll(START, input, i);
    CutAtBar(input[i..]);
    var ps := Pieces(START, input[i + 1..]);
    TrimAllCuts(current, ps);
    SeqAssociative(stages, [Trim(current)], TrimAll(Glue("", ps)));
  }

  /** A backslash outside single quotes takes the next character with it. */
  lemma StageScanEscapes(input: string, i: nat, m: Mode, stages: seq<string>, current: string)
    requires i < |input| && input[i] == '\\'
    requires m.quote != Single && !m.escaped
    requires StageScan(input, i, m, stages, current)
    ensures i + 1 < |input| ==> StageScan(input, i + 2, m, stages, current + [input[i]] + [input[i + 1]])
    ensures i + 1 == |input| ==> StageScan(input, i + 1, m, stages, current + [input[i]])
  {
    StageScanReads(input, i, m, stages, current);
    if i + 1 < |input| {
      StageScanReads(input, i + 1, m.(escaped := true), stages, current + [input[i]]);
    } else {
      assert input[i + 1..] == "";
    }
  }

  /** What a live character that stops the scan means for the whole input. */
  lemma StageScanStops(input: string, i: nat, stages: seq<string>, current: string)
    requires i < |input|
    requires StageScan(input, i, START, stages, current)
    ensures input[i] == '|' && i + 1 < |input| && input[i + 1] == '|' ==>
              Split(input) == Err(InvalidSyntax("operator || is not supported"))
    ensures input[i] == '|' && !(i + 1 < |input| && input[i + 1] == '|') && Blank(current) ==>
              Split(input) == Err(InvalidSyntax("shell stage is empty"))
    ensures input[i] == '&' ==> Split(input) == Err(InvalidSyntax("operator & is not supported"))
    ensures Forbidden(input[i]) && input[i] != '&' ==> Split(input) == Err(InvalidSyntax("shell syntax is not supported"))
    ensures input[i] == '$' && i + 1 < |input| && input[i + 1] == '(' ==>
              Split(input) == Err(InvalidSyntax("command substitution is not supported"))
  {
    Unroll(START, input, i);
  }

  lemma StageScanEnds(input: string, m: Mode, stages: seq<string>, current: string)
    requires StageScan(input, |input|, m, stages, current)
    ensures m.quote != Bare ==> Split(input) == Err(InvalidSyntax("unterminated quoted string"))
    ensures m.quote == Bare && Blank(current) ==> Split(input) == Err(InvalidSyntax("shell command is empty"))
    ensures m.quote == Bare && !Blank(current) ==> Split(input) == Ok(stages + [Trim(current)])
  {
    assert input[|input|..] == "";
    assert current + "" == current;
    assert TrimAll([current]) == [Trim(current)];
  }

  lemma StageScanStarts(input: string)
    ensures StageScan(input, 0, START, [], "")
  {
    var ps := Pieces(START, input);
    assert input[0..] == input;
    assert "" + ps[0] == ps[0];
    assert Glue("", ps) == ps;
  }

  method SplitTopLevelPipelines(input: string) returns (r: Result<seq<string>, CapabilityError>)
    ensures r == Split(input)
  {
    var stages: seq<string> := [];
    var current: string := "";
    var i := 0;
    var inSingle, inDouble := false, false;
    StageScanStarts(input);

    while i < |input|
      invariant 0 <= i <= |input|
      invariant StageScan(input, i, FlagMode(inSingle, inDouble), stages, current)
      invariant !(inSingle && inDouble)
    {
      ghost var m := FlagMode(inSingle, inDouble);
      var ch := input[i];
      var peek := if i + 1 < |input| then Some(input[i + 1]) else None;
      if m == START {
        StageScanStops(input, i, stages, current);
      }

      if ch == '\\' && !inSingle {
        StageScanEscapes(input, i, m, stages, current);
        current := current + [ch];
        if peek.Some? {
          current := current + [peek.value];
          i := i + 1;
        }
      } else if ch == '\'' && !inDouble {
        StageScanReads(input, i, m, stages, current);
        inSingle := !inSingle;
        current := current + [ch];
      } else if ch == '"' && !inSingle {
        StageScanReads(input, i, m, stages, current);
        inDouble := !inDouble;
        current := current + [ch];
      } else if ch == '|' && !inSingle && !inDouble {
        if peek == Some('|') {
          return Err(InvalidSyntax("operator || is not supported"));
        }
        var stage := Trim(current);
        ghost var lead, trail := TrimSplits(current);
        if stage == "" {
          return Err(InvalidSyntax("shell stage is empty"));
        }
        StageScanCuts(input, i, stages, current);
        stages := stages + [stage];
        current := "";
      } else if ch == '&' && !inSingle && !inDouble {
        return Err(InvalidSyntax("operator & is not supported"));
      } else if ch in {';', '<', '>', '`', '(', ')', '{', '}'} && !inSingle && !inDouble {
        return Err(InvalidSyntax("shell syntax is not supported"));
      } else if ch == '$' && !inSingle && !inDouble && peek == Some('(') {
        return Err(InvalidSyntax("command substitution is not supported"));
      } else {
        StageScanReads(input, i, m, stages, current);
        current := current + [ch];
      }
      i := i + 1;
    }

    StageScanEnds(input, FlagMode(inSingle, inDouble), stages, current);
    if inSingle || inDouble {
      return Err(InvalidSyntax("unterminated quoted string"));
    }
    var tail := Trim(current);
    ghost var lead, trail := TrimSplits(current);
    if tail == "" {
      return Err(InvalidSyntax("shell command is empty"));
    }
    return Ok(stages + [tail]);
  }

  /** What a word scan still has to prove when it stands at position i. */
  ghost predicate WordScan(stage: string, i: nat, m: Mode, words: seq<string>, current: string) {
    && i <= |stage|
    && After(START, stage).quote == After(m, stage[i..]).quote
    && Fields("", Tokens(START, stage)) == words + Fields(current, Tokens(m, stage[i..]))
  }

  lemma WordScanStarts(stage: string)
    ensures WordScan(stage, 0, START, [], "")
  {
    assert stage[0..] == stage;
  }

  /** A character that adds to the word in progress, or only moves the automaton. */
  lemma WordScanReads(stage: string, i: nat, m: Mode, words: seq<string>, current: string)
    requires i < |stage|
    requires WordScan(stage, i, m, words, current)
    requires m.escaped || m.quote != Bare || !IsWhitespace(stage[i])
    ensures WordScan(stage, i + 1, Step(m, stage[i]), words,
                     if m.escaped || Step(m, stage[i]) == m then current + [stage[i]] else current)
  {
    Unroll(m, stage, i);
  }

  lemma WordScanBreaks(stage: string, i: nat, words: seq<string>, current: string)
    requires i < |stage| && IsWhitespace(stage[i])
    requires WordScan(stage, i, START, words, current)
    ensures WordScan(stage, i + 1, START, words + Emit(current), "")
  {
    Unroll(START, stage, i);
    SeqAssociative(words, Emit(current), Fields("", Tokens(START, stage[i + 1..])));
  }

  lemma WordScanEscapes(stage: string, i: nat, m: Mode, words: seq<string>, current: string)
    requires i < |stage| && stage[i] == '\\'
    requires m.quote != Single && !m.escaped
    requires WordScan(stage, i, m, words, current)
    ensures i + 1 < |stage| ==> WordScan(stage, i + 2, m, words, current + [stage[i + 1]])
    ensures i + 1 == |stage| ==> WordScan(stage, i + 1, m, words, current)
  {
    WordScanReads(stage, i, m, words, current);
    if i + 1 < |stage| {
      WordScanReads(stage, i + 1, m.(escaped := true), words, current);
    } else {
      assert stage[i + 1..] == "";
    }
  }

  lemma WordScanEnds(stage: string, m: Mode, words: seq<string>, current: string)
    requires WordScan(stage, |stage|, m, words, current)
    ensures Words(stage) == if m.quote != Bare then Err(InvalidSyntax("unterminated quoted string")) else Ok(words + Emit(current))
  {
    assert stage[|stage|..] == "";
  }

  method SplitStageWords(stage: string) returns (r: Result<seq<string>, CapabilityError>)
    ensures r == Words(stage)
  {
    var words: seq<string> := [];
    var current: string := "";
    var i := 0;
    var inSingle, inDouble := false, false;
    WordScanStarts(stage);

    while i < |stage|
      invariant 0 <= i <= |stage|
      invariant !(inSingle && inDouble)
      invariant WordScan(stage, i, FlagMode(inSingle, inDouble), words, current)
    {
      ghost var m := FlagMode(inSingle, inDouble);
      var ch := stage[i];
      if ch == '\\' && !inSingle {
        WordScanEscapes(stage, i, m, words, current);
        if i + 1 < |stage| {
          current := current + [stage[i + 1]];
          i := i + 1;
        }
      } else if ch == '\'' && !inDouble {
        WordScanReads(stage, i, m, words, current);
        inSingle := !inSingle;
      } else if ch == '"' && !inSingle {
        WordScanReads(stage, i, m, words, current);
        inDouble := !inDouble;
      } else if IsWhitespace(ch) && !inSingle && !inDouble {
        WordScanBreaks(stage, i, words, current);
        assert words + [] == words;
        if current != "" {
          words := words + [current];
          current := "";
        }
      } else {
        WordScanReads(stage, i, m, words, current);
        current := current + [ch];
      }
      i := i + 1;
    }

    WordScanEnds(stage, FlagMode(inSingle, inDouble), words, current);
    if inSingle || inDouble {
      return Err(InvalidSyntax("unterminated quoted string"));
    }
    assert words + [] == words;
    if current != "" {
      words := words + [current];
    }
    return Ok(words);
  }

  lemma {:induction false} StageCommandsAppend(stages: seq<string>, k: nat)
    requires k < |stages|
    requires StageCommands(stages[..k]).Ok?
    ensures StageCommand(stages[k]).Err? ==> StageCommands(stages) == Err(StageCommand(stages[k]).error)
    ensures StageCommand(stages[k]).Ok? ==>
              StageCommands(stages[..k + 1]) == Ok(StageCommands(stages[..k]).value + [StageCommand(stages[k]).value])
  {
    if k == 0 {
      assert stages[..1] == [stages[0]];
      assert stages[..0] == [];
      assert StageCommands([stages[0]][1..]) == Ok([]);
      if StageCommand(stages[0]).Ok? {
        var command := [StageCommand(stages[0]).value];
        assert command + [] == [] + command;
      }
    } else {
      assert stages[..k][1..] == stages[1..][..k - 1];
      assert stages[..k + 1][1..] == stages[1..][..k];
      assert stages[..k + 1][0] == stages[..k][0] == stages[0];
      assert stages[1..][k - 1] == stages[k];
      StageCommandsAppend(stages[1..], k - 1);
      if StageCommand(stages[k]).Ok? {
        var first, rest, last := [StageCommand(stages[0]).value], StageCommands(stages[1..][..k - 1]).value, [StageCommand(stages[k]).value];
        assert first + (rest + last) == (first + rest) + last;
      }
    }
  }

  method ParsePipeline(input: string) returns (r: Result<seq<string>, CapabilityError>)
    ensures r == Parse(input)
  {
    var split := SplitTopLevelPipelines(input);
    if split.Err? {
      return Err(split.error);
    }
    var stages := split.value;
    if stages == [] {
      return Err(InvalidSyntax("shell command is empty"));
    }
    var commands: seq<string> := [];
    for k := 0 to |stages|
      invariant StageCommands(stages[..k]) == Ok(commands)
    {
      StageCommandsAppend(stages, k);
      var words := SplitStageWords(stages[k]);
      if words.Err? {
        return Err(words.error);
      }
      if words.value == [] {
        return Err(InvalidSyntax("shell stage is empty"));
      }
      var command := words.value[0];
      if '=' in command {
        return Err(InvalidSyntax("leading environment assignments are not supported"));
      }
      commands := commands + [command];
    }
    assert stages[..|stages|] == stages;
    return Ok(commands);
  }
}
