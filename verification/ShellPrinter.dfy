/** A printer for pipelines, the parser's inverse, and what trimming a stage does to its words. */
module ShellPrinter {
  import opened Basics
  import opened Text
  import opened ShellSyntax
  import opened ShellTheorems

  /** The body of a single-quoted word: a single quote is written by leaving the quotes. */
  function Escape(word: string): string {
    if word == "" then "" else (if word[0] == '\'' then "'\\''" else [word[0]]) + Escape(word[1..])
  }

  function QuoteWord(word: string): string {
    "'" + Escape(word) + "'"
  }

  function QuoteWords(words: seq<string>): (quoted: seq<string>)
    ensures |quoted| == |words|
  {
    if words == [] then [] else [QuoteWord(words[0])] + QuoteWords(words[1..])
  }

  function PrintStage(words: seq<string>): string {
    Join(QuoteWords(words), " ")
  }

  function PrintStages(pipeline: seq<seq<string>>): (stages: seq<string>)
    ensures |stages| == |pipeline|
    ensures forall k :: 0 <= k < |stages| ==> stages[k] == PrintStage(pipeline[k])
  {
    if pipeline == [] then [] else [PrintStage(pipeline[0])] + PrintStages(pipeline[1..])
  }

  function PrintPipeline(pipeline: seq<seq<string>>): string {
    Join(PrintStages(pipeline), " | ")
  }

  /** The words the parser can see: it has no way to denote an empty one. */
  function NonEmpty(words: seq<string>): seq<string> {
    if words == [] then [] else Emit(words[0]) + NonEmpty(words[1..])
  }

  function Literals(word: string): seq<Option<char>> {
    if word == "" then [] else [Some(word[0])] + Literals(word[1..])
  }

  // ------------------------------------------------------ one quoted word

  const INSIDE := Mode(Single, false)

  /** The scan of a single quote inside a word: leave, escape, re-enter. */
  lemma EscapedQuote(rest: string)
    ensures After(INSIDE, "'\\''" + rest) == After(INSIDE, rest)
    ensures Clean(INSIDE, "'\\''" + rest) <==> Clean(INSIDE, rest)
    ensures Tokens(INSIDE, "'\\''" + rest) == [Some('\'')] + Tokens(INSIDE, rest)
  {
    var s := "'\\''" + rest;
    var escaped := Mode(Bare, true);
    assert Step(INSIDE, '\'') == START && Step(START, '\\') == escaped && Step(escaped, '\'') == START && Step(START, '\'') == INSIDE;
    assert s[1..][1..][1..][1..] == rest;
    assert s[1..][0] == '\\' && s[1..][1..][0] == '\'' && s[1..][1..][1..][0] == '\'';
    assert After(START, s[1..]) == After(escaped, s[1..][1..]);
    assert After(escaped, s[1..][1..]) == After(START, s[1..][1..][1..]);
    assert Tokens(START, s[1..]) == Tokens(escaped, s[1..][1..]);
    assert Tokens(START, s[1..][1..][1..]) == Tokens(INSIDE, rest);
    assert Clean(START, s[1..]) <==> Clean(escaped, s[1..][1..]);
    assert Clean(START, s[1..][1..][1..]) <==> Clean(INSIDE, rest);
  }

  /** Any other character inside single quotes stands for itself. */
  lemma QuotedChar(c: char, rest: string)
    requires c != '\''
    ensures After(INSIDE, [c] + rest) == After(INSIDE, rest)
    ensures Clean(INSIDE, [c] + rest) <==> Clean(INSIDE, rest)
    ensures Tokens(INSIDE, [c] + rest) == [Some(c)] + Tokens(INSIDE, rest)
  {
    assert ([c] + rest)[0] == c && ([c] + rest)[1..] == rest;
    assert Step(INSIDE, c) == INSIDE;
  }

  lemma EscapeStep(word: string, rest: string)
    requires word != ""
    ensures var tail := Escape(word[1..]) + rest;
            && After(INSIDE, Escape(word) + rest) == After(INSIDE, tail)
            && (Clean(INSIDE, Escape(word) + rest) <==> Clean(INSIDE, tail))
            && Tokens(INSIDE, Escape(word) + rest) == [Some(word[0])] + Tokens(INSIDE, tail)
  {
    var tail := Escape(word[1..]) + rest;
    if word[0] == '\'' {
      assert Escape(word) + rest == "'\\''" + tail;
      EscapedQuote(tail);
    } else {
      assert Escape(word) + rest == [word[0]] + tail;
      QuotedChar(word[0], tail);
    }
  }

  lemma {:induction false} EscapeScans(word: string, rest: string)
    ensures After(INSIDE, Escape(word) + rest) == After(INSIDE, rest)
    ensures Clean(INSIDE, Escape(word) + rest) <==> Clean(INSIDE, rest)
    ensures Tokens(INSIDE, Escape(word) + rest) == Literals(word) + Tokens(INSIDE, rest)
    decreases word
  {
    if word == "" {
      assert Escape(word) + rest == rest;
    } else {
      EscapeStep(word, rest);
      EscapeScans(word[1..], rest);
      assert Literals(word) + Tokens(INSIDE, rest) == [Some(word[0])] + (Literals(word[1..]) + Tokens(INSIDE, rest));
    }
  }

  lemma QuoteWordScans(word: string, rest: string)
    ensures After(START, QuoteWord(word) + rest) == After(START, rest)
    ensures Clean(START, QuoteWord(word) + rest) <==> Clean(START, rest)
    ensures Tokens(START, QuoteWord(word) + rest) == Literals(word) + Tokens(START, rest)
  {
    var s := QuoteWord(word) + rest;
    assert s[1..] == Escape(word) + ("'" + rest);
    assert ("'" + rest)[1..] == rest;
    EscapeScans(word, "'" + rest);
  }

  lemma {:induction false} FieldsOfLiterals(prefix: string, word: string, tokens: seq<Option<char>>)
    ensures Fields(prefix, Literals(word) + tokens) == Fields(prefix + word, tokens)
    decreases word
  {
    if word == "" {
      assert Literals(word) + tokens == tokens;
      assert prefix + word == prefix;
    } else {
      assert (Literals(word) + tokens)[1..] == Literals(word[1..]) + tokens;
      FieldsOfLiterals(prefix + [word[0]], word[1..], tokens);
      assert prefix + [word[0]] + word[1..] == prefix + word;
    }
  }

  // --------------------------------------------------------------- stages

  /** A space outside quotes. */
  lemma SpaceScans(rest: string)
    ensures After(START, " " + rest) == After(START, rest)
    ensures Clean(START, " " + rest) <==> Clean(START, rest)
    ensures Tokens(START, " " + rest) == [None] + Tokens(START, rest)
  {
    var s := " " + rest;
    assert s[0] == ' ' && s[1..] == rest && Step(START, ' ') == START && !Forbidden(' ');
  }

  lemma PrintStageSplits(words: seq<string>)
    requires words != []
    ensures |words| == 1 ==> PrintStage(words) == QuoteWord(words[0]) + ""
    ensures |words| > 1 ==> PrintStage(words) == QuoteWord(words[0]) + (" " + PrintStage(words[1..]))
  {
    var first, rest := QuoteWord(words[0]), QuoteWords(words[1..]);
    assert QuoteWords(words) == [first] + rest;
    JoinCons(first, rest, " ");
    assert first + "" == first;
    assert first + " " + Join(rest, " ") == first + (" " + Join(rest, " "));
  }

  lemma {:induction false} PrintStageScans(words: seq<string>)
    ensures After(START, PrintStage(words)) == START
    ensures Clean(START, PrintStage(words))
    ensures Fields("", Tokens(START, PrintStage(words))) == NonEmpty(words)
    ensures words != [] ==> Trimmed(PrintStage(words))
  {
    if words != [] {
      var word := words[0];
      PrintStageSplits(words);
      assert "" + word == word;
      if |words| == 1 {
        QuoteWordScans(word, "");
        FieldsOfLiterals("", word, []);
        assert NonEmpty(words) == Emit(word) + NonEmpty([]);
      } else {
        var rest := PrintStage(words[1..]);
        PrintStageScans(words[1..]);
        SpaceScans(rest);
        QuoteWordScans(word, " " + rest);
        FieldsOfLiterals("", word, [None] + Tokens(START, rest));
        assert ([None] + Tokens(START, rest))[1..] == Tokens(START, rest);
      }
    }
  }

  /** Printing a stage and reading its words gives back every non-empty word, whatever its characters. */
  lemma PrintThenWords(words: seq<string>)
    ensures Words(PrintStage(words)) == Ok(NonEmpty(words))
  {
    PrintStageScans(words);
  }

  lemma {:induction false} NonEmptyKeepsAll(words: seq<string>)
    requires forall k :: 0 <= k < |words| ==> words[k] != ""
    ensures NonEmpty(words) == words
  {
    if words != [] {
      NonEmptyKeepsAll(words[1..]);
    }
  }

  /** A printed pipeline is cut back into its stages. */
  lemma PrintThenSplit(pipeline: seq<seq<string>>)
    requires pipeline != [] && forall k :: 0 <= k < |pipeline| ==> pipeline[k] != []
    ensures Split(PrintPipeline(pipeline)) == Ok(PrintStages(pipeline))
  {
    forall k | 0 <= k < |pipeline| ensures GoodStage(PrintStage(pipeline[k])) {
      PrintStageScans(pipeline[k]);
    }
    SplitOfJoin(PrintStages(pipeline));
  }

  function FirstWords(pipeline: seq<seq<string>>): (firsts: seq<string>)
    requires forall k :: 0 <= k < |pipeline| ==> pipeline[k] != []
    ensures |firsts| == |pipeline|
    ensures forall k :: 0 <= k < |firsts| ==> firsts[k] == pipeline[k][0]
  {
    if pipeline == [] then [] else [pipeline[0][0]] + FirstWords(pipeline[1..])
  }

  /** Printer and parser undo each other, for any words: the commands read back are the first words,
      unless one of those holds an equals sign, and then the parser refuses the line. */
  lemma PrintThenParse(pipeline: seq<seq<string>>)
    requires pipeline != []
    requires forall k :: 0 <= k < |pipeline| ==> pipeline[k] != []
    requires forall k, j :: 0 <= k < |pipeline| && 0 <= j < |pipeline[k]| ==> pipeline[k][j] != ""
    ensures Parse(PrintPipeline(pipeline)).Ok? <==> forall k :: 0 <= k < |pipeline| ==> '=' !in pipeline[k][0]
    ensures Parse(PrintPipeline(pipeline)).Ok? ==> Parse(PrintPipeline(pipeline)).value == FirstWords(pipeline)
    ensures forall k :: 0 <= k < |pipeline| ==> Words(PrintStages(pipeline)[k]) == Ok(pipeline[k])
  {
    PrintThenSplit(pipeline);
    ParseSucceeds(PrintPipeline(pipeline));
    forall k | 0 <= k < |pipeline| ensures Words(PrintStages(pipeline)[k]) == Ok(pipeline[k]) {
      PrintThenWords(pipeline[k]);
      NonEmptyKeepsAll(pipeline[k]);
    }
  }

  // ---------------------------------------------------- trimming and words

  lemma {:induction false} TokensConcat(m: Mode, a: string, b: string)
    ensures Tokens(m, a + b) == Tokens(m, a) + Tokens(After(m, a), b)
    decreases a
  {
    if a == "" {
      assert a + b == b;
    } else {
      assert (a + b)[1..] == a[1..] + b;
      TokensConcat(Step(m, a[0]), a[1..], b);
    }
  }

  predicate OnlyBreaks(tokens: seq<Option<char>>) {
    forall k :: 0 <= k < |tokens| ==> tokens[k] == None
  }

  lemma {:induction false} BlankTokens(s: string)
    requires Blank(s)
    ensures OnlyBreaks(Tokens(START, s))
  {
    if s != "" {
      assert s[0] != '\\' && s[0] != '\'' && s[0] != '"';
      BlankTokens(s[1..]);
    }
  }

  lemma {:induction false} FieldsSkipBreaks(breaks: seq<Option<char>>, tokens: seq<Option<char>>)
    requires OnlyBreaks(breaks)
    ensures Fields("", breaks + tokens) == Fields("", tokens)
    decreases breaks
  {
    if breaks == [] {
      assert breaks + tokens == tokens;
    } else {
      assert (breaks + tokens)[1..] == breaks[1..] + tokens;
      FieldsSkipBreaks(breaks[1..], tokens);
    }
  }

  lemma {:induction false} FieldsDropBreaks(word: string, tokens: seq<Option<char>>, breaks: seq<Option<char>>)
    requires OnlyBreaks(breaks)
    ensures Fields(word, tokens + breaks) == Fields(word, tokens)
    decreases tokens
  {
    if tokens == [] {
      assert tokens + breaks == breaks;
      if breaks != [] {
        FieldsSkipBreaks(breaks[1..], []);
        assert breaks[1..] + [] == breaks[1..];
      }
    } else {
      assert (tokens + breaks)[1..] == tokens[1..] + breaks;
      FieldsDropBreaks(match tokens[0] case None => "" case Some(c) => word + [c], tokens[1..], breaks);
    }
  }

  function LiteralCount(tokens: seq<Option<char>>): nat {
    if tokens == [] then 0 else (if tokens[0] == None then 0 else 1) + LiteralCount(tokens[1..])
  }

  function TotalLength(words: seq<string>): nat {
    if words == [] then 0 else |words[0]| + TotalLength(words[1..])
  }

  lemma {:induction false} FieldsKeepLiterals(word: string, tokens: seq<Option<char>>)
    ensures TotalLength(Fields(word, tokens)) == |word| + LiteralCount(tokens)
    decreases tokens
  {
    if tokens != [] {
      match tokens[0]
      case None =>
        FieldsKeepLiterals("", tokens[1..]);
        if word != "" {
          assert Fields(word, tokens)[1..] == Fields("", tokens[1..]);
        } else {
          assert Fields(word, tokens) == Fields("", tokens[1..]);
        }
      case Some(c) => FieldsKeepLiterals(word + [c], tokens[1..]);
    }
  }

  lemma {:induction false} LiteralCountConcat(a: seq<Option<char>>, b: seq<Option<char>>)
    ensures LiteralCount(a + b) == LiteralCount(a) + LiteralCount(b)
    decreases a
  {
    if a == [] {
      assert a + b == b;
    } else {
      assert (a + b)[1..] == a[1..] + b;
      LiteralCountConcat(a[1..], b);
    }
  }

  /** Trimming took away an escaped white space: what is left ends in a lone backslash. */
  predicate CutsEscape(piece: string) {
    After(START, Trim(piece)).escaped && |Trim(piece)| < |TrimStart(piece)|
  }

  /** The token texts of a piece, of what trimming leaves, and of what it cuts. */
  lemma WordsByTrimming(piece: string) returns (kept: seq<Option<char>>, cut: seq<Option<char>>)
    requires After(START, piece).quote == Bare
    ensures Words(piece) == Ok(Fields("", kept + cut))
    ensures Words(Trim(piece)) == Ok(Fields("", kept))
    ensures !CutsEscape(piece) ==> OnlyBreaks(cut)
    ensures CutsEscape(piece) ==> cut != [] && cut[0].Some? && OnlyBreaks(cut[1..])
  {
    var lead := TrimStartSplits(piece);
    var t := Trim(piece);
    var trail := TrimEndSplits(TrimStart(piece));
    AfterConcat(START, lead, t + trail);
    AfterConcat(START, t, trail);
    BlankKeepsQuote(START, lead);
    BlankKeepsQuote(After(START, t), trail);
    assert piece == lead + (t + trail);
    TokensConcat(START, lead, t + trail);
    TokensConcat(START, t, trail);
    BlankTokens(lead);
    kept, cut := Tokens(START, t), Tokens(After(START, t), trail);
    FieldsSkipBreaks(Tokens(START, lead), kept + cut);
    if !After(START, t).escaped || trail == "" {
      BlankTokens(trail);
    } else {
      BlankTokens(trail[1..]);
      assert cut == [Some(trail[0])] + Tokens(START, trail[1..]);
    }
  }

  /** Trimming a piece changes its words exactly when it cuts an escaped white space at the end. */
  lemma TrimKeepsWords(piece: string)
    requires After(START, piece).quote == Bare
    ensures Words(Trim(piece)).Ok? && Words(piece).Ok?
    ensures Words(Trim(piece)) == Words(piece) <==> !CutsEscape(piece)
  {
    var kept, cut := WordsByTrimming(piece);
    if CutsEscape(piece) {
      FieldsKeepLiterals("", kept + cut);
      FieldsKeepLiterals("", kept);
      LiteralCountConcat(kept, cut);
    } else {
      FieldsDropBreaks("", kept, cut);
    }
  }

  /** What the policy looks at of a stage. */
  function FirstWord(words: seq<string>): Option<string> {
    if words == [] then None else Some(words[0])
  }

  /** One more literal at the end changes the first word exactly when it leaves a single word. */
  lemma {:induction false} LastLiteral(word: string, tokens: seq<Option<char>>, c: char)
    ensures var before, after := Fields(word, tokens), Fields(word, tokens + [Some(c)]);
            after != [] && (FirstWord(before) == FirstWord(after) <==> |after| > 1)
    decreases tokens
  {
    if tokens == [] {
      assert tokens + [Some(c)] == [Some(c)];
      assert Fields(word, [Some(c)]) == Fields(word + [c], [Some(c)][1..]);
    } else {
      assert (tokens + [Some(c)])[1..] == tokens[1..] + [Some(c)];
      LastLiteral(match tokens[0] case None => "" case Some(d) => word + [d], tokens[1..], c);
    }
  }

  /** Trimming changes the word the policy looks at exactly when it cuts an escaped white space
      at the end of a piece of one word. */
  lemma TrimKeepsCommand(piece: string)
    requires After(START, piece).quote == Bare
    ensures Words(Trim(piece)).Ok? && Words(piece).Ok?
    ensures FirstWord(Words(Trim(piece)).value) == FirstWord(Words(piece).value)
       <==> !(CutsEscape(piece) && |Words(piece).value| == 1)
  {
    var kept, cut := WordsByTrimming(piece);
    if CutsEscape(piece) {
      LastLiteral("", kept, cut[0].value);
      FieldsDropBreaks("", kept + [cut[0]], cut[1..]);
      assert kept + [cut[0]] + cut[1..] == kept + cut;
    } else {
      FieldsDropBreaks("", kept, cut);
    }
  }

  lemma ScanCons(m: Mode, c: char, rest: string)
    ensures After(m, [c] + rest) == After(Step(m, c), rest)
    ensures Clean(m, [c] + rest) <==> !(m == START && (c == '|' || Forbidden(c))) && Clean(Step(m, c), rest)
    ensures !m.escaped && Step(m, c) != m ==> Tokens(m, [c] + rest) == Tokens(Step(m, c), rest)
    ensures m.escaped || (Step(m, c) == m && !IsWhitespace(c)) ==> Tokens(m, [c] + rest) == [Some(c)] + Tokens(Step(m, c), rest)
  {
    var s := [c] + rest;
    assert s[0] == c && s[1..] == rest;
  }

  /** Scanning l, a backslash and what the backslash escapes, if anything. */
  lemma EscapedSpaceScan(last: string)
    requires last == "" || last == " "
    ensures After(START, "l\\" + last) == if last == "" then Mode(Bare, true) else START
    ensures Clean(START, "l\\" + last)
    ensures Tokens(START, "l\\" + last) == Literals("l" + last)
  {
    var escaped := Mode(Bare, true);
    if last == " " { ScanCons(escaped, ' ', ""); }
    assert last == " " ==> [' '] + "" == last;
    ScanCons(START, '\\', last);
    ScanCons(START, 'l', ['\\'] + last);
    assert ['l'] + (['\\'] + last) == "l\\" + last;
    assert ("l" + last)[0] == 'l' && ("l" + last)[1..] == last;
    assert last == " " ==> last[1..] == "" && Literals(last) == [Some(' ')] + Literals("");
  }

  lemma EscapedSpaceWords(last: string)
    requires last == "" || last == " "
    ensures Words("l\\" + last) == Ok(["l" + last])
  {
    EscapedSpaceScan(last);
    var word := "l" + last;
    FieldsOfLiterals("", word, []);
    assert Literals(word) + [] == Literals(word) && "" + word == word;
  }

  /** The instance: an accepted line of one piece, l, a backslash and a space. */
  lemma CutEscapeOnAcceptedLine()
    ensures var piece := "l\\ ";
            && Split(piece) == Ok(["l\\"])
            && Pieces(START, piece) == [piece]
            && CutsEscape(piece)
            && Words(piece) == Ok(["l "])
            && Words("l\\") == Ok(["l"])
  {
    var piece, t := "l\\ ", "l\\";
    assert piece == "" + t + " " && TrimStart(piece) == piece;
    TrimUnique("", t, " ");
    EscapedSpaceScan("");
    EscapedSpaceScan(" ");
    EscapedSpaceWords("");
    EscapedSpaceWords(" ");
    assert t + "" == t && t + " " == piece && "l" + "" == "l" && "l" + " " == "l ";
    assert piece + "" == piece;
    PiecesAfterClean(START, piece, "");
    FaultAfterClean(START, true, piece, "");
    assert TrimAll([piece]) == [t];
  }
}
