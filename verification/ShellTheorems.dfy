/** What the restricted shell syntax promises: where a command line is cut,
    when it is accepted, and that its stages say it again. */
module ShellTheorems {
  import opened Basics
  import opened Text
  import opened ShellSyntax

  // --------------------------------------------------------- decomposition

  /** A cut of s into pieces: rejoined with bars they give s, none holds a live bar,
      and all but the last end outside quotes and escapes. Read from START, piece by piece. */
  ghost predicate IsDecomposition(ps: seq<string>, s: string) {
    && ps != []
    && Join(ps, "|") == s
    && (forall k, i :: 0 <= k < |ps| && 0 <= i < |ps[k]| ==> !LiveBarAt(ps[k], i))
    && (forall k :: 0 <= k < |ps| - 1 ==> After(START, ps[k]) == START)
  }

  /** Position i separates two of the pieces. */
  predicate IsCut(ps: seq<string>, i: int)
    decreases ps
  {
    |ps| > 1 && (i == |ps[0]| || (i > |ps[0]| && IsCut(ps[1..], i - |ps[0]| - 1)))
  }

  /** No live bar when the scan of p starts in state m. */
  predicate Barless(m: Mode, p: string)
    decreases p
  {
    p == "" || (!(m == START && p[0] == '|') && Barless(Step(m, p[0]), p[1..]))
  }

  lemma {:induction false} BarlessAt(m: Mode, p: string)
    ensures Barless(m, p) <==> forall i :: 0 <= i < |p| ==> !(p[i] == '|' && After(m, p[..i]) == START)
    decreases p
  {
    if p != "" {
      BarlessAt(Step(m, p[0]), p[1..]);
      forall i | 0 < i < |p|
        ensures After(m, p[..i]) == After(Step(m, p[0]), p[1..][..i - 1])
      {
        assert p[..i][1..] == p[1..][..i - 1];
      }
      if Barless(m, p) {
        forall i | 0 <= i < |p| ensures !(p[i] == '|' && After(m, p[..i]) == START) {
          if i > 0 { assert p[i] == p[1..][i - 1]; }
        }
      } else if m == START && p[0] == '|' {
        assert p[..0] == "";
      } else {
        var j :| 0 <= j < |p[1..]| && p[1..][j] == '|' && After(Step(m, p[0]), p[1..][..j]) == START;
        assert p[j + 1] == '|' && After(m, p[..j + 1]) == START;
      }
    }
  }

  /** Barless text followed by a live bar is exactly one piece. */
  lemma {:induction false} PiecesOfBarless(m: Mode, p: string, rest: string)
    requires Barless(m, p)
    ensures Pieces(m, p + rest) == Glue(p, Pieces(After(m, p), rest))
    decreases p
  {
    if p == "" {
      assert p + rest == rest;
      var ps := Pieces(m, rest);
      assert "" + ps[0] == ps[0];
      assert ps == [ps[0]] + ps[1..];
    } else {
      assert (p + rest)[1..] == p[1..] + rest;
      PiecesOfBarless(Step(m, p[0]), p[1..], rest);
      var ps := Pieces(After(m, p), rest);
      assert [p[0]] + (p[1..] + ps[0]) == p + ps[0];
    }
  }

  lemma {:induction false} JoinGlue(prefix: string, ps: seq<string>)
    requires ps != []
    ensures Join(Glue(prefix, ps), "|") == prefix + Join(ps, "|")
  {
    if |ps| > 1 {
      assert Glue(prefix, ps)[1..] == ps[1..];
      assert (prefix + ps[0]) + "|" + Join(ps[1..], "|") == prefix + (ps[0] + "|" + Join(ps[1..], "|"));
    }
  }

  /** A decomposition as a scan sees it, the first piece being read from state m. */
  ghost predicate Decomposes(m: Mode, ps: seq<string>, s: string) {
    && ps != []
    && Join(ps, "|") == s
    && Barless(m, ps[0])
    && (forall k :: 1 <= k < |ps| ==> Barless(START, ps[k]))
    && (|ps| > 1 ==> After(m, ps[0]) == START)
    && (forall k :: 1 <= k < |ps| - 1 ==> After(START, ps[k]) == START)
  }

  lemma {:induction false} PiecesDecompose(m: Mode, s: string)
    ensures Decomposes(m, Pieces(m, s), s)
    decreases s
  {
    if s != "" {
      if m == START && s[0] == '|' {
        PiecesDecompose(START, s[1..]);
        var ps := Pieces(START, s[1..]);
        assert ([""] + ps)[1..] == ps;
        assert "" + "|" + Join(ps, "|") == s;
      } else {
        PiecesDecompose(Step(m, s[0]), s[1..]);
        var ps := Pieces(Step(m, s[0]), s[1..]);
        JoinGlue([s[0]], ps);
        assert ([s[0]] + ps[0])[1..] == ps[0];
      }
    }
  }

  lemma {:induction false} DecompositionUnique(ps: seq<string>, s: string)
    requires Decomposes(START, ps, s)
    ensures ps == Pieces(START, s)
    decreases |ps|
  {
    if |ps| == 1 {
      PiecesOfBarless(START, ps[0], "");
      assert ps[0] + "" == ps[0];
    } else {
      var rest := Join(ps[1..], "|");
      assert s == ps[0] + ("|" + rest);
      PiecesOfBarless(START, ps[0], "|" + rest);
      assert ("|" + rest)[1..] == rest;
      DecompositionUnique(ps[1..], rest);
      assert ps[0] + "" == ps[0];
    }
  }

  lemma BarlessIffNoLiveBar(p: string)
    ensures Barless(START, p) <==> forall i :: 0 <= i < |p| ==> !LiveBarAt(p, i)
  {
    BarlessAt(START, p);
    assert forall i :: 0 <= i < |p| ==> (LiveBarAt(p, i) <==> p[i] == '|' && After(START, p[..i]) == START);
  }

  /** Exactly one decomposition exists, and it is the one the scan follows. */
  lemma DecompositionIsPieces(ps: seq<string>, s: string)
    ensures IsDecomposition(ps, s) <==> ps == Pieces(START, s)
  {
    PiecesDecompose(START, s);
    forall k | 0 <= k < |ps|
      ensures Barless(START, ps[k]) <==> forall i :: 0 <= i < |ps[k]| ==> !LiveBarAt(ps[k], i)
    {
      BarlessIffNoLiveBar(ps[k]);
    }
    if IsDecomposition(ps, s) {
      DecompositionUnique(ps, s);
    }
  }

  lemma {:induction false} CutsFrom(m: Mode, s: string, i: nat)
    requires i < |s|
    ensures IsCut(Pieces(m, s), i) <==> (s[i] == '|' && After(m, s[..i]) == START)
    decreases s
  {
    var m' := Step(m, s[0]);
    var ps := Pieces(m', s[1..]);
    if i > 0 {
      assert s[..i][1..] == s[1..][..i - 1];
      CutsFrom(m', s[1..], i - 1);
    }
    if m == START && s[0] == '|' {
      assert ([""] + ps)[1..] == ps;
    } else {
      assert Glue([s[0]], ps)[1..] == ps[1..];
    }
  }

  /** The cuts are exactly the live bars of the whole command line. */
  lemma CutsAreLiveBars(s: string, i: nat)
    requires i < |s|
    ensures IsCut(Pieces(START, s), i) <==> LiveBarAt(s, i)
  {
    CutsFrom(START, s, i);
  }

  // ------------------------------------------------------------ acceptance

  predicate AllClean(ps: seq<string>) {
    forall k :: 0 <= k < |ps| ==> Clean(START, ps[k])
  }

  predicate NoneBlank(ps: seq<string>) {
    forall k :: 0 <= k < |ps| ==> !Blank(ps[k])
  }

  /** A fault-free scan from state m, told by the pieces it yields. */
  ghost predicate Faultless(m: Mode, blank: bool, ps: seq<string>)
    requires ps != []
  {
    && Clean(m, ps[0])
    && !(blank && Blank(ps[0]))
    && AllClean(ps[1..])
    && NoneBlank(ps[1..])
    && After(if |ps| == 1 then m else START, ps[|ps| - 1]).quote == Bare
  }

  /** One more character in front of a piece. */
  lemma FaultlessCons(m: Mode, blank: bool, c: char, ps: seq<string>)
    requires ps != []
    ensures Faultless(m, blank, Glue([c], ps)) <==>
              && !(m == START && (c == '|' || Forbidden(c)))
              && Faultless(Step(m, c), blank && IsWhitespace(c), ps)
  {
    var p := [c] + ps[0];
    assert Glue([c], ps)[1..] == ps[1..];
    assert p[1..] == ps[0];
    BlankCons(c, ps[0]);
  }

  /** A cut in front of the pieces. */
  lemma FaultlessCut(blank: bool, ps: seq<string>)
    requires ps != []
    ensures Faultless(START, blank, [""] + ps) <==> !blank && Faultless(START, true, ps)
  {
    assert ([""] + ps)[1..] == ps;
    assert ps == [ps[0]] + ps[1..];
  }

  lemma {:induction false} FaultFromPieces(m: Mode, blank: bool, s: string)
    ensures Fault(m, blank, s) == None <==> Faultless(m, blank, Pieces(m, s))
    decreases s
  {
    if s != "" {
      var m' := Step(m, s[0]);
      var ps := Pieces(m', s[1..]);
      if m == START && s[0] == '|' {
        FaultFromPieces(START, true, s[1..]);
        FaultlessCut(blank, ps);
        if |s| > 1 && s[1] == '|' {
          assert s[1..][0] == '|' && ps[0] == "";
        }
      } else {
        FaultFromPieces(m', blank && IsWhitespace(s[0]), s[1..]);
        FaultlessCons(m, blank, s[0], ps);
        if m == START && s[0] == '$' && |s| > 1 && s[1] == '(' {
          assert s[1..][0] == '(' && ps[0][0] == '(';
        }
      }
    }
  }

  lemma {:induction false} ForbiddenFrom(m: Mode, s: string)
    ensures (forall i :: 0 <= i < |s| ==> !(Forbidden(s[i]) && After(m, s[..i]) == START))
       <==> Clean(m, Pieces(m, s)[0]) && AllClean(Pieces(m, s)[1..])
    decreases s
  {
    if s != "" {
      var m' := Step(m, s[0]);
      var ps := Pieces(m', s[1..]);
      ForbiddenFrom(m', s[1..]);
      assert s[..0] == "";
      forall i | 0 < i < |s| ensures After(m, s[..i]) == After(m', s[1..][..i - 1]) && s[i] == s[1..][i - 1] {
        assert s[..i][1..] == s[1..][..i - 1];
      }
      if j :| 0 <= j < |s[1..]| && Forbidden(s[1..][j]) && After(m', s[1..][..j]) == START {
        assert Forbidden(s[j + 1]) && After(m, s[..j + 1]) == START;
      }
      if m == START && s[0] == '|' {
        assert ([""] + ps)[1..] == ps;
        assert ps == [ps[0]] + ps[1..];
      } else {
        assert Glue([s[0]], ps)[1..] == ps[1..];
        assert ([s[0]] + ps[0])[1..] == ps[0];
      }
    }
  }

  lemma {:induction false} LastPieceQuote(m: Mode, s: string)
    ensures After(m, s) == After(if |Pieces(m, s)| == 1 then m else START, Pieces(m, s)[|Pieces(m, s)| - 1])
    decreases s
  {
    if s != "" {
      var m' := Step(m, s[0]);
      LastPieceQuote(m', s[1..]);
      var ps := Pieces(m', s[1..]);
      if !(m == START && s[0] == '|') {
        assert ([s[0]] + ps[0])[1..] == ps[0];
      }
    }
  }

  lemma NoLiveForbidden(s: string)
    ensures (forall i :: 0 <= i < |s| ==> !LiveForbiddenAt(s, i)) <==> AllClean(Pieces(START, s))
  {
    ForbiddenFrom(START, s);
    var ps := Pieces(START, s);
    assert ps == [ps[0]] + ps[1..];
    assert forall i :: 0 <= i < |s| ==> (LiveForbiddenAt(s, i) <==> Forbidden(s[i]) && After(START, s[..i]) == START);
  }

  /** No rejected operator is live, quotes are closed, and no piece between live bars is blank. */
  ghost predicate Acceptable(s: string) {
    && (forall i :: 0 <= i < |s| ==> !LiveForbiddenAt(s, i))
    && After(START, s).quote == Bare
    && NoneBlank(Pieces(START, s))
  }

  /** Exactly the acceptable command lines are accepted; the stages are the pieces trimmed. */
  lemma SplitAccepts(s: string)
    ensures Split(s).Ok? <==> Acceptable(s)
    ensures Split(s).Ok? ==> Split(s).value == TrimAll(Pieces(START, s))
  {
    var ps := Pieces(START, s);
    FaultFromPieces(START, true, s);
    NoLiveForbidden(s);
    LastPieceQuote(START, s);
    assert ps == [ps[0]] + ps[1..];
  }

  // ----------------------------------------------------- stages as command

  /** What every stage of an accepted command line is. */
  predicate GoodStage(t: string) {
    Trimmed(t) && Clean(START, t) && After(START, t).quote == Bare
  }

  predicate GoodStages(stages: seq<string>) {
    stages != [] && forall k :: 0 <= k < |stages| ==> GoodStage(stages[k])
  }

  lemma GoodStageOfPiece(p: string)
    requires Clean(START, p) && !Blank(p) && After(START, p).quote == Bare
    ensures GoodStage(Trim(p))
  {
    var lead, trail := TrimSplits(p);
    var t := Trim(p);
    CleanConcat(START, lead + t, trail);
    CleanConcat(START, lead, t);
    AfterConcat(START, lead + t, trail);
    AfterConcat(START, lead, t);
    BlankKeepsQuote(START, lead);
    BlankKeepsQuote(After(START, t), trail);
  }

  lemma PieceIsGood(ps: seq<string>, s: string, k: nat)
    requires Decomposes(START, ps, s) && Faultless(START, true, ps) && k < |ps|
    ensures Clean(START, ps[k]) && !Blank(ps[k]) && After(START, ps[k]).quote == Bare
  {
    if k > 0 {
      assert ps[k] == ps[1..][k - 1];
    }
  }

  lemma SplitGivesGoodStages(s: string)
    requires Split(s).Ok?
    ensures GoodStages(Split(s).value)
  {
    var ps := Pieces(START, s);
    FaultFromPieces(START, true, s);
    PiecesDecompose(START, s);
    forall k | 0 <= k < |ps| ensures GoodStage(Trim(ps[k])) {
      PieceIsGood(ps, s, k);
      GoodStageOfPiece(ps[k]);
    }
  }

  lemma BlankThenStage(lead: string, t: string)
    requires Blank(lead) && GoodStage(t)
    ensures Clean(START, lead + t) && After(START, lead + t) == After(START, t)
    ensures !Blank(lead + t)
  {
    BlankIsClean(START, lead);
    BlankKeepsQuote(START, lead);
    CleanConcat(START, lead, t);
    AfterConcat(START, lead, t);
    assert (lead + t)[|lead|] == t[0];
  }

  lemma StageThenSpace(lead: string, t: string)
    requires Blank(lead) && GoodStage(t)
    ensures Clean(START, lead + t + " ") && After(START, lead + t + " ") == START
    ensures !Blank(lead + t + " ") && Trim(lead + t + " ") == t
  {
    BlankThenStage(lead, t);
    AfterConcat(START, lead + t, " ");
    BlankKeepsQuote(After(START, t), " ");
    CleanConcat(START, lead + t, " ");
    BlankIsClean(After(START, t), " ");
    TrimUnique(lead, t, " ");
  }

  lemma StageThenBar(lead: string, t: string, rest: string)
    requires Blank(lead) && GoodStage(t)
    requires rest != "" && rest[0] == ' '
    ensures Fault(START, true, lead + t + " |" + rest) == Fault(START, true, rest)
    ensures Pieces(START, lead + t + " |" + rest) == [lead + t + " "] + Pieces(START, rest)
    ensures Trim(lead + t + " ") == t
  {
    var u, bar := lead + t + " ", "|" + rest;
    StageThenSpace(lead, t);
    FaultAfterClean(START, true, u, bar);
    PiecesAfterClean(START, u, bar);
    assert lead + t + " |" + rest == u + bar;
    assert bar[1..] == rest && bar[1] == ' ';
    assert u + "" == u;
  }

  lemma LastStage(lead: string, t: string)
    requires Blank(lead) && GoodStage(t)
    ensures Fault(START, true, lead + t) == None
    ensures Pieces(START, lead + t) == [lead + t]
    ensures Trim(lead + t) == t
  {
    var u := lead + t;
    assert u + "" == u;
    BlankThenStage(lead, t);
    FaultAfterClean(START, true, u, "");
    PiecesAfterClean(START, u, "");
    TrimUnique(lead, t, "");
  }

  lemma {:induction false} SplitJoinFrom(lead: string, stages: seq<string>)
    requires Blank(lead) && GoodStages(stages)
    ensures Fault(START, true, lead + Join(stages, " | ")) == None
    ensures TrimAll(Pieces(START, lead + Join(stages, " | "))) == stages
    decreases |stages|
  {
    if |stages| == 1 {
      LastStage(lead, stages[0]);
      assert TrimAll([lead + stages[0]]) == [stages[0]];
    } else {
      var rest := " " + Join(stages[1..], " | ");
      StageThenBar(lead, stages[0], rest);
      assert lead + Join(stages, " | ") == lead + stages[0] + " |" + rest;
      SplitJoinFrom(" ", stages[1..]);
      var ps := Pieces(START, rest);
      assert ([lead + stages[0] + " "] + ps)[1..] == ps;
    }
  }

  /** Good stages are the stages of the command line that lists them. */
  lemma SplitOfJoin(stages: seq<string>)
    requires GoodStages(stages)
    ensures Split(Join(stages, " | ")) == Ok(stages)
  {
    SplitJoinFrom("", stages);
    assert "" + Join(stages, " | ") == Join(stages, " | ");
  }

  /** Listing the stages of an accepted command line and splitting again gives the same stages,
      also when trimming has left a stage that ends in a lone backslash. */
  lemma SplitIsStable(s: string)
    requires Split(s).Ok?
    ensures Split(Join(Split(s).value, " | ")) == Split(s)
  {
    SplitGivesGoodStages(s);
    SplitOfJoin(Split(s).value);
  }

  // ------------------------------------------------------------ two passes

  /** The second pass never finds an open quote in a stage of the first. */
  lemma StagesHaveWords(s: string, k: nat)
    requires Split(s).Ok? && k < |Split(s).value|
    ensures Words(Split(s).value[k]).Ok?
  {
    SplitGivesGoodStages(s);
  }

  /** The stage yields a command name. */
  predicate HasCommand(stage: string) {
    Words(stage).Ok? && Words(stage).value != [] && '=' !in Words(stage).value[0]
  }

  lemma {:induction false} StageCommandsIff(stages: seq<string>)
    ensures StageCommands(stages).Ok? <==> forall k :: 0 <= k < |stages| ==> HasCommand(stages[k])
    ensures StageCommands(stages).Ok? ==>
              && |StageCommands(stages).value| == |stages|
              && forall k :: 0 <= k < |stages| ==> StageCommands(stages).value[k] == Words(stages[k]).value[0]
  {
    if stages != [] {
      StageCommandsIff(stages[1..]);
      assert stages == [stages[0]] + stages[1..];
    }
  }

  /** The parser succeeds exactly when the split does and every stage has a first word without
      an equals sign; it then returns one command per stage, that first word. */
  lemma ParseSucceeds(s: string)
    ensures Parse(s).Ok? <==>
              Split(s).Ok? && forall k :: 0 <= k < |Split(s).value| ==>
                var words := Words(Split(s).value[k]);
                words.Ok? && words.value != [] && '=' !in words.value[0]
    ensures Parse(s).Ok? ==>
              && |Parse(s).value| == |Split(s).value|
              && forall k :: 0 <= k < |Parse(s).value| ==> Parse(s).value[k] == Words(Split(s).value[k]).value[0]
  {
    if Split(s).Ok? {
      StageCommandsIff(Split(s).value);
      assert forall k :: 0 <= k < |Split(s).value| ==>
        (HasCommand(Split(s).value[k]) <==>
         var words := Words(Split(s).value[k]);
         words.Ok? && words.value != [] && '=' !in words.value[0]);
    }
  }
}
