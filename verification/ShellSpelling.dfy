/** Every way to write a word, and what the parser reads of it; and the texts it refuses, with their errors. */
module ShellSpelling {
  import opened Basics
  import opened Text
  import opened ShellSyntax
  import opened ShellTheorems
  import opened ShellPrinter

  /** A stretch of a word and how it is written. */
  datatype Segment =
    | Plain(text: string)
    | SingleQuoted(text: string)
    | DoubleQuoted(text: string)
    | Backslashed(text: string)

  type Word = seq<Segment>

  /** The characters that may stand by themselves. */
  predicate PlainChar(c: char) {
    !IsWhitespace(c) && c !in "\\'\"|&;<>`(){}"
  }

  predicate Writable(segment: Segment) {
    match segment
    case Plain(text) => forall k :: 0 <= k < |text| ==> PlainChar(text[k])
    case SingleQuoted(text) => '\'' !in text
    case DoubleQuoted(_) => true
    case Backslashed(_) => true
  }

  /** Inside double quotes: a backslash before each double quote and each backslash. */
  function DoubleEscape(text: string): string {
    if text == "" then ""
    else (if text[0] == '"' || text[0] == '\\' then ['\\', text[0]] else [text[0]]) + DoubleEscape(text[1..])
  }

  function BackslashAll(text: string): string {
    if text == "" then "" else ['\\', text[0]] + BackslashAll(text[1..])
  }

  function Spell(segment: Segment): string {
    match segment
    case Plain(text) => text
    case SingleQuoted(text) => "'" + text + "'"
    case DoubleQuoted(text) => "\"" + DoubleEscape(text) + "\""
    case Backslashed(text) => BackslashAll(text)
  }

  function SpellWord(word: Word): string {
    if word == [] then "" else Spell(word[0]) + SpellWord(word[1..])
  }

  /** The characters a word stands for. */
  function Meaning(word: Word): string {
    if word == [] then "" else word[0].text + Meaning(word[1..])
  }

  predicate WritableWord(word: Word) {
    forall k :: 0 <= k < |word| ==> Writable(word[k])
  }

  predicate WritableWords(words: seq<Word>) {
    forall k :: 0 <= k < |words| ==> WritableWord(words[k])
  }

  function SpellWords(words: seq<Word>): (spelled: seq<string>)
    ensures |spelled| == |words| && forall k :: 0 <= k < |words| ==> spelled[k] == SpellWord(words[k])
  {
    if words == [] then [] else [SpellWord(words[0])] + SpellWords(words[1..])
  }

  function Meanings(words: seq<Word>): (meanings: seq<string>)
    ensures |meanings| == |words| && forall k :: 0 <= k < |words| ==> meanings[k] == Meaning(words[k])
  {
    if words == [] then [] else [Meaning(words[0])] + Meanings(words[1..])
  }

  /** The words of a stage with white space between them. */
  function SpellStage(words: seq<Word>, gap: string): string {
    Join(SpellWords(words), gap)
  }

  // ---------------------------------------------------------- what is read

  /** Read from mode m the text leaves mode m' and stands for the word; nothing in it is live. */
  predicate Reads(m: Mode, text: string, m': Mode, word: string) {
    After(m, text) == m' && Clean(m, text) && Tokens(m, text) == Literals(word)
  }

  lemma {:induction false} LiteralsConcat(a: string, b: string)
    ensures Literals(a + b) == Literals(a) + Literals(b)
    decreases a
  {
    if a == "" {
      assert a + b == b;
    } else {
      assert (a + b)[1..] == a[1..] + b;
      LiteralsConcat(a[1..], b);
    }
  }

  lemma ReadsBoth(m: Mode, a: string, m1: Mode, u: string, b: string, m2: Mode, v: string)
    requires Reads(m, a, m1, u) && Reads(m1, b, m2, v)
    ensures Reads(m, a + b, m2, u + v)
  {
    AfterConcat(m, a, b);
    CleanConcat(m, a, b);
    TokensConcat(m, a, b);
    LiteralsConcat(u, v);
  }

  const IN_SINGLE := Mode(Single, false)
  const IN_DOUBLE := Mode(Double, false)

  /** A character that does nothing in this mode stands for itself. */
  lemma ReadsItself(m: Mode, c: char)
    requires !m.escaped && Step(m, c) == m
    requires m == START ==> PlainChar(c)
    requires m.quote == Bare ==> m == START
    ensures Reads(m, [c], m, [c])
  {
    assert [c][1..] == "";
    assert Tokens(m, [c]) == [Some(c)] + Tokens(m, "");
    assert Literals([c]) == [Some(c)] + Literals("");
  }

  lemma ReadsEscaped(m: Mode, c: char)
    requires m == START || m == IN_DOUBLE
    ensures Reads(m, ['\\', c], m, [c])
  {
    var s, e := ['\\', c], m.(escaped := true);
    assert s[1..] == [c] && [c][1..] == "";
    assert Step(m, '\\') == e && Step(e, c) == m;
    assert Tokens(e, [c]) == [Some(c)] + Tokens(m, "");
    assert Clean(e, [c]) && Clean(m, s);
    assert After(e, [c]) == m;
    assert Literals([c]) == [Some(c)] + Literals("");
  }

  lemma ReadsQuote(m: Mode, c: char, m': Mode)
    requires (c == '\'' && ((m == START && m' == IN_SINGLE) || (m == IN_SINGLE && m' == START)))
          || (c == '"' && ((m == START && m' == IN_DOUBLE) || (m == IN_DOUBLE && m' == START)))
    ensures Reads(m, [c], m', "")
  {
    assert [c][1..] == "";
    assert Step(m, c) == m' && m' != m;
    assert Tokens(m, [c]) == Tokens(m', "");
  }

  lemma {:induction false} PlainReads(text: string)
    requires Writable(Plain(text))
    ensures Reads(START, text, START, text)
  {
    if text != "" {
      ReadsItself(START, text[0]);
      PlainReads(text[1..]);
      ReadsBoth(START, [text[0]], START, [text[0]], text[1..], START, text[1..]);
      assert [text[0]] + text[1..] == text;
    }
  }

  lemma {:induction false} SingleReads(text: string)
    requires '\'' !in text
    ensures Reads(IN_SINGLE, text, IN_SINGLE, text)
  {
    if text != "" {
      ReadsItself(IN_SINGLE, text[0]);
      SingleReads(text[1..]);
      ReadsBoth(IN_SINGLE, [text[0]], IN_SINGLE, [text[0]], text[1..], IN_SINGLE, text[1..]);
      assert [text[0]] + text[1..] == text;
    }
  }

  lemma {:induction false} DoubleReads(text: string)
    ensures Reads(IN_DOUBLE, DoubleEscape(text), IN_DOUBLE, text)
  {
    if text != "" {
      var c := text[0];
      var first := if c == '"' || c == '\\' then ['\\', c] else [c];
      if c == '"' || c == '\\' { ReadsEscaped(IN_DOUBLE, c); } else { ReadsItself(IN_DOUBLE, c); }
      DoubleReads(text[1..]);
      ReadsBoth(IN_DOUBLE, first, IN_DOUBLE, [c], DoubleEscape(text[1..]), IN_DOUBLE, text[1..]);
      assert [c] + text[1..] == text;
    }
  }

  lemma {:induction false} BackslashReads(text: string)
    ensures Reads(START, BackslashAll(text), START, text)
  {
    if text != "" {
      ReadsEscaped(START, text[0]);
      BackslashReads(text[1..]);
      ReadsBoth(START, ['\\', text[0]], START, [text[0]], BackslashAll(text[1..]), START, text[1..]);
      assert [text[0]] + text[1..] == text;
    }
  }

  lemma QuotesRead(quote: string, inside: Mode, body: string, text: string)
    requires Reads(START, quote, inside, "") && Reads(inside, quote, START, "") && Reads(inside, body, inside, text)
    ensures Reads(START, quote + body + quote, START, text)
  {
    ReadsBoth(START, quote, inside, "", body, inside, text);
    ReadsBoth(START, quote + body, inside, "" + text, quote, START, "");
    assert "" + text + "" == text;
  }

  lemma SegmentReads(segment: Segment)
    requires Writable(segment)
    ensures Reads(START, Spell(segment), START, segment.text)
  {
    match segment
    case Plain(text) => PlainReads(text);
    case SingleQuoted(text) =>
      SingleReads(text);
      ReadsQuote(START, '\'', IN_SINGLE);
      ReadsQuote(IN_SINGLE, '\'', START);
      QuotesRead("'", IN_SINGLE, text, text);
    case DoubleQuoted(text) =>
      DoubleReads(text);
      ReadsQuote(START, '"', IN_DOUBLE);
      ReadsQuote(IN_DOUBLE, '"', START);
      QuotesRead("\"", IN_DOUBLE, DoubleEscape(text), text);
    case Backslashed(text) => BackslashReads(text);
  }

  lemma {:induction false} WordReads(word: Word)
    requires WritableWord(word)
    ensures Reads(START, SpellWord(word), START, Meaning(word))
  {
    if word != [] {
      SegmentReads(word[0]);
      WordReads(word[1..]);
      ReadsBoth(START, Spell(word[0]), START, word[0].text, SpellWord(word[1..]), START, Meaning(word[1..]));
    }
  }

  // ------------------------------------------------------- stages and lines

  lemma GapTokens(gap: string)
    requires Blank(gap) && gap != ""
    ensures After(START, gap) == START && Clean(START, gap)
    ensures OnlyBreaks(Tokens(START, gap)) && Tokens(START, gap) != []
  {
    BlankKeepsQuote(START, gap);
    BlankIsClean(START, gap);
    BlankTokens(gap);
    assert gap[0] != '\\' && gap[0] != '\'' && gap[0] != '"';
  }

  lemma FieldsAtGap(word: string, gap: seq<Option<char>>, rest: seq<Option<char>>)
    requires OnlyBreaks(gap) && gap != []
    ensures Fields("", Literals(word) + (gap + rest)) == Emit(word) + Fields("", rest)
  {
    FieldsOfLiterals("", word, gap + rest);
    assert "" + word == word;
    assert (gap + rest)[1..] == gap[1..] + rest;
    FieldsSkipBreaks(gap[1..], rest);
  }

  lemma LastWordFields(word: string)
    ensures Fields("", Literals(word)) == Emit(word)
  {
    FieldsOfLiterals("", word, []);
    assert Literals(word) + [] == Literals(word) && "" + word == word;
  }

  lemma WordThenStage(first: string, word: string, gap: string, rest: string)
    requires Reads(START, first, START, word) && Blank(gap) && gap != ""
    requires After(START, rest) == START && Clean(START, rest)
    ensures After(START, first + (gap + rest)) == START && Clean(START, first + (gap + rest))
    ensures Fields("", Tokens(START, first + (gap + rest))) == Emit(word) + Fields("", Tokens(START, rest))
  {
    GapTokens(gap);
    AfterConcat(START, gap, rest);
    CleanConcat(START, gap, rest);
    TokensConcat(START, gap, rest);
    AfterConcat(START, first, gap + rest);
    CleanConcat(START, first, gap + rest);
    TokensConcat(START, first, gap + rest);
    FieldsAtGap(word, Tokens(START, gap), Tokens(START, rest));
  }

  lemma SpellStageCons(words: seq<Word>, gap: string)
    requires words != []
    ensures |words| == 1 ==> SpellStage(words, gap) == SpellWord(words[0])
    ensures |words| > 1 ==> SpellStage(words, gap) == SpellWord(words[0]) + (gap + SpellStage(words[1..], gap))
  {
    var first, rest := SpellWord(words[0]), SpellStage(words[1..], gap);
    assert SpellWords(words)[1..] == SpellWords(words[1..]);
    assert first + gap + rest == first + (gap + rest);
  }

  lemma {:induction false} StageReads(words: seq<Word>, gap: string)
    requires WritableWords(words) && Blank(gap) && gap != ""
    ensures After(START, SpellStage(words, gap)) == START && Clean(START, SpellStage(words, gap))
    ensures Fields("", Tokens(START, SpellStage(words, gap))) == NonEmpty(Meanings(words))
  {
    if words != [] {
      WordReads(words[0]);
      SpellStageCons(words, gap);
      assert Meanings(words) == [Meaning(words[0])] + Meanings(words[1..]);
      if |words| == 1 {
        LastWordFields(Meaning(words[0]));
        assert NonEmpty(Meanings(words)) == Emit(Meaning(words[0])) + NonEmpty([]);
      } else {
        StageReads(words[1..], gap);
        WordThenStage(SpellWord(words[0]), Meaning(words[0]), gap, SpellStage(words[1..], gap));
      }
    }
  }

  /** However its words are written, and whatever white space separates them, a stage reads as those words. */
  lemma SpelledWords(words: seq<Word>, gap: string)
    requires WritableWords(words) && Blank(gap) && gap != ""
    ensures Words(SpellStage(words, gap)) == Ok(NonEmpty(Meanings(words)))
  {
    StageReads(words, gap);
  }

  function SpellStages(pipeline: seq<seq<Word>>, gap: string): (stages: seq<string>)
    ensures |stages| == |pipeline|
    ensures forall k :: 0 <= k < |stages| ==> stages[k] == SpellStage(pipeline[k], gap)
  {
    if pipeline == [] then [] else [SpellStage(pipeline[0], gap)] + SpellStages(pipeline[1..], gap)
  }

  /** However its words are written, a pipeline is cut into its stages, provided none starts or ends in (escaped) white space. */
  lemma SpelledSplit(pipeline: seq<seq<Word>>, gap: string)
    requires pipeline != [] && Blank(gap) && gap != ""
    requires forall k :: 0 <= k < |pipeline| ==> WritableWords(pipeline[k]) && Trimmed(SpellStage(pipeline[k], gap))
    ensures Split(Join(SpellStages(pipeline, gap), " | ")) == Ok(SpellStages(pipeline, gap))
  {
    forall k | 0 <= k < |pipeline| ensures GoodStage(SpellStage(pipeline[k], gap)) {
      StageReads(pipeline[k], gap);
    }
    SplitOfJoin(SpellStages(pipeline, gap));
  }

  // --------------------------------------------------- double-quoted lines

  function InDoubleQuotes(words: seq<string>): (quoted: seq<Word>)
    ensures |quoted| == |words| && forall k :: 0 <= k < |words| ==> quoted[k] == [DoubleQuoted(words[k])]
  {
    if words == [] then [] else [[DoubleQuoted(words[0])]] + InDoubleQuotes(words[1..])
  }

  function AllInDoubleQuotes(pipeline: seq<seq<string>>): (quoted: seq<seq<Word>>)
    ensures |quoted| == |pipeline| && forall k :: 0 <= k < |pipeline| ==> quoted[k] == InDoubleQuotes(pipeline[k])
  {
    if pipeline == [] then [] else [InDoubleQuotes(pipeline[0])] + AllInDoubleQuotes(pipeline[1..])
  }

  lemma {:induction false} DoubleQuotedIsTrimmed(words: seq<string>)
    requires words != []
    ensures Trimmed(SpellStage(InDoubleQuotes(words), " "))
  {
    var quoted := InDoubleQuotes(words);
    var first := Spell(quoted[0][0]);
    assert SpellWord(quoted[0]) == first + SpellWord([]) == first;
    assert first[0] == '"' && first[|first| - 1] == '"';
    SpellStageCons(quoted, " ");
    if |words| > 1 {
      DoubleQuotedIsTrimmed(words[1..]);
      assert quoted[1..] == InDoubleQuotes(words[1..]);
    }
  }

  lemma {:induction false} DoubleQuotedMeanings(words: seq<string>)
    ensures Meanings(InDoubleQuotes(words)) == words
  {
    if words != [] {
      DoubleQuotedMeanings(words[1..]);
      assert Meaning([DoubleQuoted(words[0])]) == words[0] + Meaning([]);
      assert words[0] + "" == words[0];
    }
  }

  lemma DoubleQuotedStage(words: seq<string>)
    requires words != []
    ensures WritableWords(InDoubleQuotes(words)) && Trimmed(SpellStage(InDoubleQuotes(words), " "))
    ensures Words(SpellStage(InDoubleQuotes(words), " ")) == Ok(NonEmpty(words))
  {
    DoubleQuotedIsTrimmed(words);
    DoubleQuotedMeanings(words);
    SpelledWords(InDoubleQuotes(words), " ");
  }

  function DoubleQuotedStages(pipeline: seq<seq<string>>): seq<string> {
    SpellStages(AllInDoubleQuotes(pipeline), " ")
  }

  /** Any pipeline of any words, each written in double quotes, is cut into its stages and read word for word. */
  lemma DoubleQuotedRoundTrip(pipeline: seq<seq<string>>)
    requires pipeline != [] && forall k :: 0 <= k < |pipeline| ==> pipeline[k] != []
    ensures |DoubleQuotedStages(pipeline)| == |pipeline|
    ensures Split(Join(DoubleQuotedStages(pipeline), " | ")) == Ok(DoubleQuotedStages(pipeline))
    ensures forall k :: 0 <= k < |pipeline| ==> Words(DoubleQuotedStages(pipeline)[k]) == Ok(NonEmpty(pipeline[k]))
  {
    var quoted := AllInDoubleQuotes(pipeline);
    forall k | 0 <= k < |pipeline|
      ensures WritableWords(quoted[k]) && Trimmed(SpellStage(quoted[k], " "))
      ensures Words(SpellStage(quoted[k], " ")) == Ok(NonEmpty(pipeline[k]))
    {
      DoubleQuotedStage(pipeline[k]);
    }
    SpelledSplit(quoted, " ");
  }

  // ---------------------------------------------------------- what is refused

  /** Stages, each with the bar after it. */
  function Listed(stages: seq<string>): string {
    if stages == [] then "" else stages[0] + " | " + Listed(stages[1..])
  }

  /** Stages and a bar each, then the words of a further stage. */
  function Line(stages: seq<string>, words: seq<Word>): string {
    Listed(stages) + SpellStage(words, " ") + " "
  }

  predicate Sound(stages: seq<string>, words: seq<Word>) {
    && (forall k :: 0 <= k < |stages| ==> GoodStage(stages[k]))
    && WritableWords(words) && (words == [] || Trimmed(SpellStage(words, " ")))
  }

  lemma {:induction false} FaultAfterListed(lead: string, stages: seq<string>, rest: string)
    requires Blank(lead) && forall k :: 0 <= k < |stages| ==> GoodStage(stages[k])
    ensures Fault(START, true, lead + Listed(stages) + rest)
         == if stages == [] then Fault(START, true, lead + rest) else Fault(START, true, " " + rest)
    decreases |stages|
  {
    if stages == [] {
      assert lead + "" + rest == lead + rest;
    } else {
      var more := " " + Listed(stages[1..]) + rest;
      assert lead + Listed(stages) + rest == lead + stages[0] + " |" + more;
      StageThenBar(lead, stages[0], more);
      FaultAfterListed(" ", stages[1..], rest);
    }
  }

  lemma FaultAfterText(lead: string, t: string, rest: string)
    requires Blank(lead) && Clean(START, t) && After(START, t) == START && (t == "" || Trimmed(t))
    ensures Fault(START, true, lead + (t + " " + rest)) == Fault(START, t == "", rest)
  {
    BlankIsClean(START, lead);
    BlankKeepsQuote(START, lead);
    CleanConcat(START, lead, t);
    AfterConcat(START, lead, t);
    assert t != "" ==> (lead + t)[|lead|] == t[0];
    assert t == "" ==> lead + t == lead;
    FaultAfterClean(START, true, lead + t, " " + rest);
    assert lead + (t + " " + rest) == lead + t + (" " + rest);
    assert (" " + rest)[1..] == rest && Step(START, ' ') == START && !Forbidden(' ');
  }

  lemma LineSplits(stages: seq<string>, words: seq<Word>, rest: string)
    ensures Line(stages, words) + rest == "" + Listed(stages) + (SpellStage(words, " ") + " " + rest)
  {
    var a, t := Listed(stages), SpellStage(words, " ");
    assert a + t + " " + rest == a + (t + " " + rest);
    assert "" + a == a;
  }

  /** Where the scan stands at the end of such a line: outside everything, and what comes next decides. */
  lemma FaultAfterLine(stages: seq<string>, words: seq<Word>, rest: string)
    requires Sound(stages, words)
    ensures Fault(START, true, Line(stages, words) + rest) == Fault(START, words == [], rest)
  {
    var t := SpellStage(words, " ");
    StageReads(words, " ");
    LineSplits(stages, words, rest);
    FaultAfterListed("", stages, t + " " + rest);
    FaultAfterText("", t, rest);
    FaultAfterText(" ", t, rest);
  }

  /** An operator outside every word is refused, by name, whatever comes before and after. */
  lemma OperatorIsRefused(stages: seq<string>, words: seq<Word>, c: char, rest: string)
    requires Sound(stages, words)
    requires c in "&;<>`(){}"
    ensures Split(Line(stages, words) + ([c] + rest))
         == Err(CapabilityError("invalid_params", if c == '&' then "operator & is not supported" else "shell syntax is not supported"))
  {
    FaultAfterLine(stages, words, [c] + rest);
    assert ([c] + rest)[0] == c;
  }

  /** So are a doubled bar, a stage without a word, and a last one. */
  lemma BarsAreRefused(stages: seq<string>, words: seq<Word>, rest: string)
    requires Sound(stages, words)
    ensures Split(Line(stages, words) + ("||" + rest)) == Err(CapabilityError("invalid_params", "operator || is not supported"))
    ensures words == [] && (rest == "" || rest[0] != '|') ==>
              Split(Line(stages, words) + ("|" + rest)) == Err(CapabilityError("invalid_params", "shell stage is empty"))
    ensures words == [] ==> Split(Line(stages, words)) == Err(CapabilityError("invalid_params", "shell command is empty"))
  {
    FaultAfterLine(stages, words, "||" + rest);
    FaultAfterLine(stages, words, "|" + rest);
    FaultAfterLine(stages, words, "");
    assert Line(stages, words) + "" == Line(stages, words);
  }

  lemma SubstitutionIsRefused(stages: seq<string>, words: seq<Word>, rest: string)
    requires Sound(stages, words)
    ensures Split(Line(stages, words) + ("$(" + rest)) == Err(CapabilityError("invalid_params", "command substitution is not supported"))
  {
    FaultAfterLine(stages, words, "$(" + rest);
    assert ("$(" + rest)[0] == '$' && ("$(" + rest)[1] == '(' && !Forbidden('$');
  }

  lemma UnfinishedQuote(quote: char, inside: Mode, body: string, blank: bool)
    requires (quote == '\'' && inside == IN_SINGLE) || (quote == '"' && inside == IN_DOUBLE)
    requires Clean(inside, body) && After(inside, body) == inside
    ensures Fault(START, blank, [quote] + body) == Some("unterminated quoted string")
  {
    assert ([quote] + body)[1..] == body;
    assert Fault(START, blank, [quote] + body) == Fault(inside, blank && IsWhitespace(quote), body);
    FaultAfterClean(inside, blank && IsWhitespace(quote), body, "");
    assert body + "" == body;
  }

  /** And a quote of either kind that is not closed. */
  lemma OpenQuoteIsRefused(stages: seq<string>, words: seq<Word>, rest: string)
    requires Sound(stages, words)
    ensures '\'' !in rest ==>
              Split(Line(stages, words) + (['\''] + rest)) == Err(CapabilityError("invalid_params", "unterminated quoted string"))
    ensures Split(Line(stages, words) + (['"'] + DoubleEscape(rest))) == Err(CapabilityError("invalid_params", "unterminated quoted string"))
  {
    if '\'' !in rest {
      SingleReads(rest);
      UnfinishedQuote('\'', IN_SINGLE, rest, words == []);
      FaultAfterLine(stages, words, ['\''] + rest);
    }
    DoubleReads(rest);
    UnfinishedQuote('"', IN_DOUBLE, DoubleEscape(rest), words == []);
    FaultAfterLine(stages, words, ['"'] + DoubleEscape(rest));
  }

  // ------------------------------------------------------- the first bad stage

  lemma {:induction false} FirstErrorWins(stages: seq<string>, k: nat)
    requires k < |stages| && StageCommand(stages[k]).Err?
    requires forall j :: 0 <= j < k ==> HasCommand(stages[j])
    ensures StageCommands(stages) == Err(StageCommand(stages[k]).error)
    decreases k
  {
    if k > 0 {
      assert HasCommand(stages[0]);
      FirstErrorWins(stages[1..], k - 1);
    }
  }

  /** The first stage without a command decides the error: no word at all, or a first word with an equals sign. */
  lemma FirstBadStage(pipeline: seq<seq<string>>, k: nat)
    requires k < |pipeline| && forall j :: 0 <= j < |pipeline| ==> pipeline[j] != []
    requires forall j :: 0 <= j < k ==> NonEmpty(pipeline[j]) != [] && '=' !in NonEmpty(pipeline[j])[0]
    requires NonEmpty(pipeline[k]) == [] || '=' in NonEmpty(pipeline[k])[0]
    ensures Parse(Join(DoubleQuotedStages(pipeline), " | "))
         == Err(CapabilityError("invalid_params", if NonEmpty(pipeline[k]) == [] then "shell stage is empty"
                                                  else "leading environment assignments are not supported"))
  {
    var stages := DoubleQuotedStages(pipeline);
    DoubleQuotedRoundTrip(pipeline);
    forall j | 0 <= j < k ensures HasCommand(stages[j]) {
      assert Words(stages[j]) == Ok(NonEmpty(pipeline[j]));
    }
    assert Words(stages[k]) == Ok(NonEmpty(pipeline[k]));
    FirstErrorWins(stages, k);
  }
}
