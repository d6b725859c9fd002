/** What splitting guarantees: nothing is lost, cutting is compositional exactly when a
    text ends safely, the raw groups are the only such decomposition, and re-splitting
    a returned statement is stable exactly when that statement still has code. */
module SplitterTheory {
  import opened Text
  import opened SqlLexer
  import opened Splitter

  // ---------- nothing is lost ----------

  lemma {:induction false} GroupsFromJoin(ls: seq<Lexeme>, group: string)
    ensures Join(GroupsFrom(ls, group), ";") == group + LexemesText(ls)
  {
    if ls == [] {
      assert group + "" == group;
    } else {
      var text, tail := LexemeText(ls[0]), LexemesText(ls[1..]);
      ConcatAssoc(group, text, tail);
      if ls[0].Semicolon? {
        GroupsFromJoin(ls[1..], "");
        JoinCons(group, GroupsFrom(ls[1..], ""), ";");
        assert "" + tail == tail;
      } else {
        GroupsFromJoin(ls[1..], group + text);
      }
    }
  }

  /** The raw groups joined by `;` are the input again, for every input. */
  lemma {:induction false} RawGroupsJoin(sql: string)
    ensures Join(RawGroups(sql), ";") == sql
  {
    LexSound(sql);
    GroupsFromJoin(Lex(sql), "");
  }

  /** A successful split returns the trimmed raw groups in order; at most one group is
      missing, it is the last one and blank, and every other group had code. */
  lemma {:induction false} SplitDropsNothing(sql: string)
    requires Split(sql).Success?
    ensures var groups, statements := RawGroups(sql), Split(sql).value;
            && Join(groups, ";") == sql
            && 0 < |statements| <= |groups| <= |statements| + 1
            && (forall i :: 0 <= i < |statements| ==> HasCode(groups[i]) && statements[i] == TrimSpace(groups[i]))
            && (|groups| == |statements| + 1 ==>
                  TrimSpace(groups[|statements|]) == "" && !HasCode(groups[|statements|]))
  {
    RawGroupsJoin(sql);
    var groups := RawGroups(sql);
    var last := |groups| - 1;
    assert Passes(groups, last) && Passes(groups, 0);
    forall i | 0 <= i < |Split(sql).value|
      ensures HasCode(groups[i])
    {
      assert Passes(groups, i);
    }
  }

  // ---------- lexemes under more or less text after them ----------

  lemma {:induction false} ItemsFitContext(quote: char, items: seq<QuotedItem>, rest: string, other: string)
    requires ItemsFit(quote, items, rest) && (rest == "" ==> other == "")
    ensures ItemsFit(quote, items, other)
    decreases |items|
  {
    if items == [] {
    } else {
      ItemsFitContext(quote, items[1..], rest, other);
    }
  }

  /** A lexeme is complete when it does not reach for more input. */
  predicate Complete(l: Lexeme) {
    match l
    case Quoted(_, _, closed) => closed
    case LineComment(text) => text != "" && IsNewline(text[|text| - 1])
    case BlockComment(text) => |text| >= 3 && ClosesBlock(text, |text| - 2)
    case _ => true
  }

  lemma {:induction false} FitsMore(l: Lexeme, rest: string, more: string)
    requires Fits(l, rest) && rest != ""
    ensures Fits(l, rest + more)
  {
    match l
    case Plain(c) =>
      var s := [c] + rest;
      assert [c] + (rest + more) == s + more;
    case Quoted(quote, items, closed) =>
      ItemsFitContext(quote, items, Closing(quote, closed, rest), Closing(quote, closed, rest + more));
    case LineComment(text) =>
      assert text + (rest + more) == text + rest + more;
    case _ =>
  }

  lemma {:induction false} FitsSemicolon(l: Lexeme, more: string)
    requires Fits(l, "") && Complete(l)
    ensures Fits(l, ";" + more)
  {
    match l
    case Quoted(quote, items, closed) =>
      ItemsFitContext(quote, items, Closing(quote, closed, ""), Closing(quote, closed, ";" + more));
    case LineComment(text) =>
      assert text + "" == text;
      assert text + (";" + more) == text + ";" + more;
    case _ =>
  }

  /** Without the text behind it a lexeme stays one, but for the first `-` of a final `--`. */
  lemma {:induction false} FitsLess(l: Lexeme, rest: string, more: string)
    requires Fits(l, rest + more) && !(l == Plain('-') && rest == "-")
    ensures Fits(l, rest)
  {
    match l
    case Plain(c) =>
      var s := [c] + (rest + more);
      assert forall k :: 0 <= k < |rest| ==> (rest + more)[k] == rest[k];
    case Quoted(quote, items, closed) =>
      ItemsFitContext(quote, items, Closing(quote, closed, rest + more), Closing(quote, closed, rest));
    case LineComment(text) =>
      assert text + (rest + more) == text + rest + more;
    case _ =>
  }

  // ---------- splitting is compositional exactly at safe ends ----------

  /** The scanner, alone on `sql`, ends outside every literal and comment; or it ends in
      the comment that a bare final `--` opens only because nothing follows it. */
  predicate SafeEnd(sql: string) {
    var ls := Lex(sql);
    ls == [] || Complete(ls[|ls| - 1]) || ls[|ls| - 1] == LineComment("--")
  }

  lemma {:induction false} SafeEndTail(sql: string)
    requires sql != ""
    ensures var (l, rest) := First(sql);
            SafeEnd(sql) <==> if rest != "" then SafeEnd(rest) else Complete(l) || l == LineComment("--")
  {
    LexCons(sql);
    var (l, rest) := First(sql);
    if rest != "" {
      LexCons(rest);
      assert Lex(sql) == [l] + Lex(rest);
    }
  }

  /** What lexeme `l` closes when `group` is being read, and the group it leaves open. */
  function Closed(l: Lexeme, group: string): seq<string> {
    if l.Semicolon? then [group] else []
  }

  function Grown(l: Lexeme, group: string): string {
    if l.Semicolon? then "" else group + LexemeText(l)
  }

  /** The groups of a text that begins with lexeme `l`. */
  lemma {:induction false} GroupsOf(l: Lexeme, rest: string, group: string)
    requires Fits(l, rest)
    ensures GroupsFrom(Lex(LexemeText(l) + rest), group) == Closed(l, group) + GroupsFrom(Lex(rest), Grown(l, group))
  {
    LexOf(l, rest);
    assert ([l] + Lex(rest))[1..] == Lex(rest);
    assert [] + GroupsFrom(Lex(rest), Grown(l, group)) == GroupsFrom(Lex(rest), Grown(l, group));
  }

  lemma {:induction false} GroupsOfCut(b: string, group: string)
    ensures GroupsFrom(Lex(";" + b), group) == [group] + RawGroups(b)
  {
    GroupsOf(Semicolon, b, group);
  }

  lemma {:induction false} ComposeDashes(b: string, group: string)
    ensures GroupsFrom(Lex("--;" + b), group) == [group + "--"] + RawGroups(b)
  {
    assert "--;" + b == "-" + ("-;" + b) && "-;" + b == "-" + (";" + b);
    var dash, empty: seq<string> := Plain('-'), [];
    GroupsOf(dash, "-;" + b, group);
    GroupsOf(dash, ";" + b, group + "-");
    GroupsOfCut(b, group + "--");
    assert group + "-" + "-" == group + "--";
    assert empty + (empty + ([group + "--"] + RawGroups(b))) == [group + "--"] + RawGroups(b);
  }

  lemma {:induction false} GroupsOfOne(l: Lexeme, group: string)
    ensures GroupsFrom([l], group) == Closed(l, group) + [Grown(l, group)]
  {
    assert [] + [Grown(l, group)] == [Grown(l, group)];
  }

  lemma {:induction false} ComposeComplete(l: Lexeme, b: string, group: string)
    requires Fits(l, "") && Complete(l)
    ensures GroupsFrom(Lex(LexemeText(l) + (";" + b)), group) == GroupsFrom([l], group) + RawGroups(b)
  {
    FitsSemicolon(l, b);
    GroupsOf(l, ";" + b, group);
    GroupsOfCut(b, Grown(l, group));
    GroupsOfOne(l, group);
    SeqAssoc(Closed(l, group), [Grown(l, group)], RawGroups(b));
  }

  /** The last lexeme of the left text. */
  lemma {:induction false} ComposeLast(l: Lexeme, b: string, group: string)
    requires Fits(l, "") && (Complete(l) || l == LineComment("--"))
    ensures GroupsFrom(Lex(LexemeText(l) + (";" + b)), group) == GroupsFrom([l], group) + RawGroups(b)
  {
    if l == LineComment("--") {
      ComposeDashes(b, group);
      assert "--" + (";" + b) == "--;" + b;
    } else {
      ComposeComplete(l, b, group);
    }
  }

  /** A lexeme of the left text that is not its last. */
  lemma {:induction false} ComposeStep(l: Lexeme, rest: string, b: string, group: string)
    requires Fits(l, rest) && rest != ""
    requires GroupsFrom(Lex(rest + (";" + b)), Grown(l, group)) == GroupsFrom(Lex(rest), Grown(l, group)) + RawGroups(b)
    ensures GroupsFrom(Lex(LexemeText(l) + (rest + (";" + b))), group) ==
            GroupsFrom(Lex(LexemeText(l) + rest), group) + RawGroups(b)
  {
    FitsMore(l, rest, ";" + b);
    GroupsOf(l, rest, group);
    GroupsOf(l, rest + (";" + b), group);
    SeqAssoc(Closed(l, group), GroupsFrom(Lex(rest), Grown(l, group)), RawGroups(b));
  }

  lemma {:induction false} ComposeFrom(a: string, b: string, group: string)
    requires SafeEnd(a)
    ensures GroupsFrom(Lex(a + (";" + b)), group) == GroupsFrom(Lex(a), group) + RawGroups(b)
    decreases |a|
  {
    if a == "" {
      GroupsOfCut(b, group);
      assert a + (";" + b) == ";" + b;
    } else {
      FirstSound(a);
      SafeEndTail(a);
      var (l, rest) := First(a);
      if rest == "" {
        ComposeLast(l, b, group);
        assert LexemeText(l) + rest == LexemeText(l);
      } else {
        ComposeFrom(rest, b, Grown(l, group));
        ComposeStep(l, rest, b, group);
        ConcatAssoc(LexemeText(l), rest, ";" + b);
      }
    }
  }

  lemma {:induction false} OpenLiteralStays(quote: char, s: string)
    requires IsQuote(quote) && !ReadQuoted(quote, s).1
    ensures !ReadQuoted(quote, s + ";").1 && ReadQuoted(quote, s + ";").2 == ""
    decreases |s|
  {
    var t := s + ";";
    if s == "" {
      assert t[1..] == "";
    } else if s == "\\" {
      assert t[2..] == "";
    } else if (s[0] == '\\' && |s| > 1) || (s[0] == quote && |s| > 1 && s[1] == quote) {
      OpenLiteralStays(quote, s[2..]);
      assert t[2..] == s[2..] + ";";
    } else {
      OpenLiteralStays(quote, s[1..]);
      assert t[1..] == s[1..] + ";";
    }
  }

  lemma {:induction false} OpenLineAbsorbs(s: string)
    requires Fits(LineComment(s), "") && !Complete(LineComment(s)) && s != "--"
    ensures First(s + ";") == (LineComment(s + ";"), "")
  {
    var t := s + ";";
    assert t[0] == s[0] && t[1..] == s[1..] + ";" && t + "" == t;
    assert Fits(LineComment(t), "");
    LineUnique(t, "");
  }

  lemma {:induction false} OpenBlockAbsorbs(s: string)
    requires Fits(BlockComment(s), "") && !Complete(BlockComment(s))
    ensures First(s + ";") == (BlockComment(s + ";"), "")
  {
    var t := s + ";";
    forall k: nat | 1 <= k < |t| - 2
      ensures !ClosesBlock(t, k)
    {
      if k < |s| - 2 { assert !ClosesBlock(s, k); }
    }
    assert Fits(BlockComment(t), "") && t + "" == t;
    BlockUnique(t, "");
  }

  lemma {:induction false} OpenLexemeAbsorbs(s: string)
    requires s != "" && First(s).1 == "" && !Complete(First(s).0) && s != "--"
    ensures First(s + ";").1 == "" && !First(s + ";").0.Semicolon?
  {
    FirstSound(s);
    assert LexemeText(First(s).0) + "" == LexemeText(First(s).0);
    match First(s).0
    case Quoted(quote, _, _) =>
      OpenLiteralStays(quote, s[1..]);
      assert (s + ";")[0] == s[0] && (s + ";")[1..] == s[1..] + ";";
    case LineComment(_) => OpenLineAbsorbs(s);
    case BlockComment(_) => OpenBlockAbsorbs(s);
    case _ =>
  }

  function Cuts(ls: seq<Lexeme>): nat {
    if ls == [] then 0 else (if ls[0].Semicolon? then 1 else 0) + Cuts(ls[1..])
  }

  lemma {:induction false} GroupsCount(ls: seq<Lexeme>, group: string)
    ensures |GroupsFrom(ls, group)| == 1 + Cuts(ls)
  {
    if ls == [] {
    } else {
      GroupsCount(ls[1..], if ls[0].Semicolon? then "" else group + LexemeText(ls[0]));
    }
  }

  lemma {:induction false} CutsOf(l: Lexeme, rest: string)
    requires Fits(l, rest)
    ensures Cuts(Lex(LexemeText(l) + rest)) == (if l.Semicolon? then 1 else 0) + Cuts(Lex(rest))
  {
    LexOf(l, rest);
    assert ([l] + Lex(rest))[1..] == Lex(rest);
  }

  lemma {:induction false} AbsorbFrom(a: string)
    requires !SafeEnd(a)
    ensures Cuts(Lex(a + ";")) == Cuts(Lex(a))
    decreases |a|
  {
    FirstSound(a);
    SafeEndTail(a);
    var (l, rest) := First(a);
    if rest != "" {
      CutsOf(l, rest);
      FitsMore(l, rest, ";");
      CutsOf(l, rest + ";");
      ConcatAssoc(LexemeText(l), rest, ";");
      AbsorbFrom(rest);
    } else {
      assert a == LexemeText(l);
      OpenLexemeAbsorbs(a);
      LexCons(a + ";");
      LexCons(a);
    }
  }

  /** Splitting `a;b` is splitting `a` and `b`, whatever `b` is, exactly when `a` ends safely. */
  lemma {:induction false} CompositionExact(a: string)
    ensures SafeEnd(a) <==> forall b :: RawGroups(a + ";" + b) == RawGroups(a) + RawGroups(b)
  {
    if SafeEnd(a) {
      forall b ensures RawGroups(a + ";" + b) == RawGroups(a) + RawGroups(b) {
        ComposeFrom(a, b, "");
        ConcatAssoc(a, ";", b);
      }
    } else {
      AbsorbFrom(a);
      GroupsCount(Lex(a + ";"), "");
      GroupsCount(Lex(a), "");
      assert a + ";" + "" == a + ";";
      assert |RawGroups(a + ";" + "")| != |RawGroups(a) + RawGroups("")|;
    }
  }

  // ---------- the raw groups are the only decomposition ----------

  /** Scanned alone, the text is one group. */
  predicate Sealed(group: string) {
    RawGroups(group) == [group]
  }

  lemma {:induction false} SealedCuts(group: string)
    ensures Sealed(group) <==> Cuts(Lex(group)) == 0
  {
    GroupsCount(Lex(group), "");
    RawGroupsJoin(group);
  }

  /** Each lexeme fits before the text of the others and then `rest`. */
  predicate FitTogether(ls: seq<Lexeme>, rest: string) {
    ls != [] ==> Fits(ls[0], LexemesText(ls[1..]) + rest) && FitTogether(ls[1..], rest)
  }

  lemma {:induction false} TextSnoc(ls: seq<Lexeme>, l: Lexeme)
    ensures LexemesText(ls + [l]) == LexemesText(ls) + LexemeText(l)
  {
    if ls == [] {
      assert LexemesText([l]) == LexemeText(l) + "" && ls + [l] == [l];
    } else {
      TextSnoc(ls[1..], l);
      assert (ls + [l])[1..] == ls[1..] + [l];
      ConcatAssoc(LexemeText(ls[0]), LexemesText(ls[1..]), LexemeText(l));
    }
  }

  lemma {:induction false} FitSnoc(ls: seq<Lexeme>, l: Lexeme, rest: string)
    requires FitTogether(ls, LexemeText(l) + rest) && Fits(l, rest)
    ensures FitTogether(ls + [l], rest)
  {
    if ls == [] {
      assert ls + [l] == [l] && LexemesText([]) + rest == rest;
    } else {
      FitSnoc(ls[1..], l, rest);
      TextSnoc(ls[1..], l);
      assert (ls + [l])[1..] == ls[1..] + [l];
      ConcatAssoc(LexemesText(ls[1..]), LexemeText(l), rest);
    }
  }

  lemma {:induction false} CompleteInside(l: Lexeme, rest: string)
    requires Fits(l, rest) && rest != ""
    ensures Complete(l)
  {
  }

  /** A cut-out piece holds no cut when scanned alone, and a cut follows a safe end. */
  lemma {:induction false} PieceStandsAlone(ls: seq<Lexeme>, rest: string)
    requires FitTogether(ls, rest) && Cuts(ls) == 0
    ensures Cuts(Lex(LexemesText(ls))) == 0
    ensures rest != "" ==> SafeEnd(LexemesText(ls))
  {
    if ls == [] {
    } else {
      var l, text := ls[0], LexemesText(ls[1..]);
      PieceStandsAlone(ls[1..], rest);
      if l == Plain('-') && text == "-" {
        assert LexemesText(ls) == "--" && "--"[..2] == "--" && "--"[2..] == "";
        assert Lex("--") == [LineComment("--")];
      } else {
        FitsLess(l, text, rest);
        CutsOf(l, text);
        SafeEndTail(LexemeText(l) + text);
        FirstUnique(l, text);
        if text == "" && rest != "" {
          assert text + rest == rest;
          CompleteInside(l, rest);
        }
      }
    }
  }

  predicate StandAlone(groups: seq<string>) {
    && (forall i :: 0 <= i < |groups| ==> Sealed(groups[i]))
    && (forall i :: 0 <= i < |groups| - 1 ==> SafeEnd(groups[i]))
  }

  lemma {:induction false} CutsSnoc(ls: seq<Lexeme>, l: Lexeme)
    requires Cuts(ls) == 0 && !l.Semicolon?
    ensures Cuts(ls + [l]) == 0
  {
    if ls == [] {
    } else {
      CutsSnoc(ls[1..], l);
      assert (ls + [l])[1..] == ls[1..] + [l];
    }
  }

  lemma {:induction false} GroupsStandAlone(before: seq<Lexeme>, ls: seq<Lexeme>)
    requires Cuts(before) == 0 && FitTogether(before, LexemesText(ls)) && WellFormed(ls)
    ensures StandAlone(GroupsFrom(ls, LexemesText(before)))
    decreases |ls|
  {
    var group := LexemesText(before);
    PieceStandsAlone(before, LexemesText(ls));
    SealedCuts(group);
    if ls == [] {
    } else if ls[0].Semicolon? {
      GroupsStandAlone([], ls[1..]);
    } else {
      FitSnoc(before, ls[0], LexemesText(ls[1..]));
      TextSnoc(before, ls[0]);
      CutsSnoc(before, ls[0]);
      GroupsStandAlone(before + [ls[0]], ls[1..]);
    }
  }

  /** Any pieces that stand alone are recovered from their `;`-join. */
  lemma {:induction false} JoinRecovered(pieces: seq<string>)
    requires pieces != [] && StandAlone(pieces)
    ensures RawGroups(Join(pieces, ";")) == pieces
  {
    if |pieces| > 1 {
      JoinRecovered(pieces[1..]);
      CompositionExact(pieces[0]);
      assert pieces == [pieces[0]] + pieces[1..];
    } else {
      assert pieces == [pieces[0]];
    }
  }

  /** The raw groups are the one list of stand-alone pieces that joins to the input. */
  lemma {:induction false} RawGroupsExact(sql: string, groups: seq<string>)
    ensures groups == RawGroups(sql) <==> groups != [] && StandAlone(groups) && Join(groups, ";") == sql
  {
    LexSound(sql);
    GroupsStandAlone([], Lex(sql));
    RawGroupsJoin(sql);
    if groups != [] && StandAlone(groups) {
      JoinRecovered(groups);
    }
  }

  // ---------- trimming and splitting again ----------

  lemma {:induction false} SpaceIsPlain(c: char, rest: string)
    requires IsSpace(c)
    ensures Fits(Plain(c), rest)
  {
  }

  /** Cutting the last character off never adds a cut. */
  lemma {:induction false} PrefixCuts(s: string, c: char)
    ensures Cuts(Lex(s)) <= Cuts(Lex(s + [c]))
    decreases |s|
  {
    if s == "" {
    } else {
      FirstSound(s);
      var (l, rest) := First(s);
      CutsOf(l, rest);
      if rest != "" {
        FitsMore(l, rest, [c]);
        CutsOf(l, rest + [c]);
        ConcatAssoc(LexemeText(l), rest, [c]);
        PrefixCuts(rest, c);
      } else if l.Semicolon? {
        CutsOf(l, [c]);
        assert s == ";";
      }
    }
  }

  lemma {:induction false} TrimSealed(group: string)
    requires Sealed(group)
    ensures Sealed(TrimSpace(group))
    decreases |group|
  {
    SealedCuts(group);
    if group == "" {
    } else {
      var n := |group| - 1;
      if IsSpace(group[0]) {
        SpaceIsPlain(group[0], group[1..]);
        CutsOf(Plain(group[0]), group[1..]);
        assert group == [group[0]] + group[1..];
        SealedCuts(group[1..]);
        TrimSealed(group[1..]);
      } else if IsSpace(group[n]) {
        PrefixCuts(group[..n], group[n]);
        assert group == group[..n] + [group[n]];
        SealedCuts(group[..n]);
        TrimSealed(group[..n]);
      }
    }
  }

  lemma {:induction false} SplitSealed(s: string)
    requires Sealed(s) && TrimSpace(s) == s
    ensures Split(s) == if HasCode(s) then Success([s]) else Failure(InvalidStatementGroups)
  {
    assert Passes([s], 0) == HasCode(s) && Trimmed([s]) == [s];
  }

  lemma {:induction false} TrimIdempotent(s: string)
    ensures TrimSpace(TrimSpace(s)) == TrimSpace(s)
  {
  }

  /** Splitting a returned statement gives it back, alone and unchanged, exactly when the
      has-code scan still accepts it after trimming; otherwise it is refused. */
  lemma {:induction false} ResplitExact(sql: string, i: nat)
    requires Split(sql).Success? && i < |Split(sql).value|
    ensures var s := Split(sql).value[i];
            Split(s) == if HasCode(s) then Success([s]) else Failure(InvalidStatementGroups)
  {
    var groups := RawGroups(sql);
    RawGroupsExact(sql, groups);
    SplitDropsNothing(sql);
    TrimSealed(groups[i]);
    TrimIdempotent(groups[i]);
    SplitSealed(Split(sql).value[i]);
  }

  lemma {:induction false} CodeOf(l: Lexeme, rest: string)
    requires Fits(l, rest)
    ensures HasCode(LexemeText(l) + rest) <==> IsCode(l) || HasCode(rest)
  {
    FirstUnique(l, rest);
    HasCodeCons(LexemeText(l) + rest);
  }

  lemma {:induction false} NoCodeGrows(l: Lexeme, c: char)
    requires Fits(l, "") && !IsCode(l) && IsBlank(c)
    ensures !HasCode(LexemeText(l) + [c])
  {
    var s := LexemeText(l) + [c];
    if Complete(l) {
      assert Fits(l, [c]) by {
        if l.LineComment? { assert l.text + "" == l.text; }
      }
      CodeOf(l, [c]);
      SpaceIsPlain(c, "");
      CodeOf(Plain(c), "");
      assert [c] + "" == [c];
    } else if l.LineComment? {
      assert l.text + "" == l.text && s + "" == s;
      CodeOf(LineComment(s), "");
    } else {
      forall k: nat | 1 <= k < |s| - 2
        ensures !ClosesBlock(s, k)
      {
        if k < |l.text| - 2 { assert !ClosesBlock(l.text, k); }
      }
      assert s + "" == s;
      CodeOf(BlockComment(s), "");
    }
  }

  /** Cutting a blank off the end never loses the code. */
  lemma {:induction false} PrefixCode(s: string, c: char)
    requires IsBlank(c)
    ensures HasCode(s + [c]) ==> HasCode(s)
    decreases |s|
  {
    if s == "" {
      SpaceIsPlain(c, "");
      CodeOf(Plain(c), "");
      assert s + [c] == [c] + "";
    } else {
      FirstSound(s);
      var (l, rest) := First(s);
      CodeOf(l, rest);
      if rest != "" {
        FitsMore(l, rest, [c]);
        CodeOf(l, rest + [c]);
        ConcatAssoc(LexemeText(l), rest, [c]);
        PrefixCode(rest, c);
      } else if !IsCode(l) {
        assert s == LexemeText(l);
        NoCodeGrows(l, c);
      }
    }
  }

  /** No white space other than the five blanks of the scanner. */
  predicate OnlyBlanks(s: string) {
    forall c <- s :: IsSpace(c) ==> IsBlank(c)
  }

  lemma {:induction false} TrimKeepsCode(group: string)
    requires OnlyBlanks(group)
    ensures HasCode(group) ==> HasCode(TrimSpace(group))
    decreases |group|
  {
    if group == "" {
    } else {
      var n := |group| - 1;
      if IsSpace(group[0]) {
        SpaceIsPlain(group[0], group[1..]);
        CodeOf(Plain(group[0]), group[1..]);
        assert group == [group[0]] + group[1..];
        TrimKeepsCode(group[1..]);
      } else if IsSpace(group[n]) {
        assert group == group[..n] + [group[n]];
        PrefixCode(group[..n], group[n]);
        TrimKeepsCode(group[..n]);
      }
    }
  }

  lemma {:induction false} JoinOnlyBlanks(parts: seq<string>, separator: string, i: nat)
    requires i < |parts| && OnlyBlanks(Join(parts, separator))
    ensures OnlyBlanks(parts[i])
  {
    if |parts| > 1 {
      var tail := Join(parts[1..], separator);
      assert Join(parts, separator) == parts[0] + separator + tail;
      forall c | c in parts[0] || c in tail
        ensures c in Join(parts, separator)
      {
      }
      if i > 0 { JoinOnlyBlanks(parts[1..], separator, i - 1); }
    }
  }

  /** On inputs without exotic white space every returned statement is a fixed point. */
  lemma {:induction false} ResplitStable(sql: string, i: nat)
    requires OnlyBlanks(sql) && Split(sql).Success? && i < |Split(sql).value|
    ensures var s := Split(sql).value[i]; Split(s) == Success([s])
  {
    SplitDropsNothing(sql);
    RawGroupsJoin(sql);
    JoinOnlyBlanks(RawGroups(sql), ";", i);
    TrimKeepsCode(RawGroups(sql)[i]);
    ResplitExact(sql, i);
  }

  lemma {:induction false} PlainFirst(c: char, rest: string)
    requires Fits(Plain(c), rest) && Sealed(rest)
    ensures Sealed([c] + rest) && (HasCode([c] + rest) <==> !IsBlank(c) || HasCode(rest))
  {
    CutsOf(Plain(c), rest);
    SealedCuts(rest);
    SealedCuts([c] + rest);
    CodeOf(Plain(c), rest);
  }

  lemma {:induction false} SplitOne(s: string)
    requires Sealed(s) && HasCode(s)
    ensures Split(s) == Success([TrimSpace(s)])
  {
    assert Trimmed([s]) == [TrimSpace(s)];
  }

  lemma {:induction false} VerticalTabIsCode()
    ensures var t := "\U{0B}"; Sealed(t) && HasCode(t) && TrimSpace(t) == ""
    ensures Split("").Failure?
  {
    SplitSealed("");
    PlainFirst('\U{0B}', "");
    assert "\U{0B}" == ['\U{0B}'] + "";
  }

  lemma {:induction false} TrimDashes()
    ensures TrimSpace("--\U{0B}") == "--"
  {
    assert "--\U{0B}"[..2] == "--";
  }

  lemma {:induction false} DashesBeforeTab()
    ensures var s := "--\U{0B}"; Sealed(s) && HasCode(s) && TrimSpace(s) == "--"
  {
    var t := "\U{0B}";
    VerticalTabIsCode();
    PlainFirst('-', t);
    PlainFirst('-', "-" + t);
    assert "--\U{0B}" == "-" + ("-" + t);
    TrimDashes();
  }

  lemma {:induction false} DashesAlone()
    ensures Sealed("--") && !HasCode("--") && TrimSpace("--") == "--"
  {
    assert "--" + "" == "--";
    assert Fits(LineComment("--"), "");
    CodeOf(LineComment("--"), "");
    CutsOf(LineComment("--"), "");
    SealedCuts("--");
  }

  /** With a vertical tab it can fail: the scanner counts it as code, trimming removes it;
      and trimming can turn two minus signs into a comment. */
  lemma {:induction false} ResplitUnstable()
    ensures Split("\U{0B}") == Success([""]) && Split("").Failure?
    ensures Split("--\U{0B}") == Success(["--"]) && Split("--").Failure?
  {
    VerticalTabIsCode();
    DashesBeforeTab();
    DashesAlone();
    SplitOne("\U{0B}");
    SplitOne("--\U{0B}");
    SplitSealed("--");
  }
}
