/** internal/sqlguard/splitter.go: the scanner that cuts a text at its top-level
    semicolons, and the scanner that asks whether a cut-out group has code. */
module Splitter {
  import opened Text
  import opened SqlLexer

  datatype ScanState = Normal | SingleQuote | DoubleQuote | Backtick | InLineComment | InBlockComment

  datatype SplitError = InvalidStatementGroups

  // ---------- what the scanners compute ----------

  function GroupsFrom(ls: seq<Lexeme>, group: string): (groups: seq<string>)
    ensures groups != []
  {
    if ls == [] then [group]
    else if ls[0].Semicolon? then [group] + GroupsFrom(ls[1..], "")
    else GroupsFrom(ls[1..], group + LexemeText(ls[0]))
  }

  /** The pieces between the semicolons that stand outside every literal and comment. */
  function RawGroups(sql: string): (groups: seq<string>)
    ensures groups != []
  {
    GroupsFrom(Lex(sql), "")
  }

  predicate IsCode(l: Lexeme) {
    match l
    case Plain(c) => !IsBlank(c)
    case LineComment(_) => false
    case BlockComment(_) => false
    case _ => true
  }

  /** Some lexeme is neither one of the five blanks nor a comment. */
  predicate HasCode(sql: string) {
    exists l <- Lex(sql) :: IsCode(l)
  }

  /** A group is refused unless it has code or is a blank last one. */
  predicate Passes(groups: seq<string>, i: nat)
    requires i < |groups|
  {
    HasCode(groups[i]) || (i == |groups| - 1 && |groups| > 1 && TrimSpace(groups[i]) == "")
  }

  predicate Acceptable(groups: seq<string>) {
    forall i :: 0 <= i < |groups| ==> Passes(groups, i)
  }

  function Trimmed(groups: seq<string>): seq<string> {
    seq(|groups|, i requires 0 <= i < |groups| => TrimSpace(groups[i]))
  }

  function Kept(groups: seq<string>): seq<string>
    requires groups != []
  {
    if HasCode(groups[|groups| - 1]) then groups else groups[..|groups| - 1]
  }

  function Split(sql: string): Result<seq<string>, SplitError> {
    var groups := RawGroups(sql);
    if Acceptable(groups) then Success(Trimmed(Kept(groups))) else Failure(InvalidStatementGroups)
  }

  // ---------- one iteration of the scanning loop ----------

  predicate InLiteral(state: ScanState) {
    state.SingleQuote? || state.DoubleQuote? || state.Backtick?
  }

  function QuoteOf(state: ScanState): char
    requires InLiteral(state)
  {
    match state
    case SingleQuote => '\''
    case DoubleQuote => '"'
    case _ => '`'
  }

  /** How much of `rest` still belongs to the lexeme that `state` says is open. */
  function Pending(state: ScanState, rest: string): (n: nat)
    ensures n <= |rest|
  {
    match state
    case Normal => 0
    case InLineComment => LineLength(rest)
    case InBlockComment => BlockLength(rest)
    case _ => |rest| - |ReadQuoted(QuoteOf(state), rest).2|
  }

  /** The groups still to come when the scanner stands before `rest` in `state`,
      having read `group` since the last cut. */
  function Resume(state: ScanState, group: string, rest: string): seq<string> {
    var n := Pending(state, rest);
    GroupsFrom(Lex(rest[n..]), group + rest[..n])
  }

  function Opened(rest: string): ScanState
    requires rest != ""
  {
    if rest[0] == '\'' then SingleQuote
    else if rest[0] == '"' then DoubleQuote
    else if rest[0] == '`' then Backtick
    else if StartsLineComment(rest) then InLineComment
    else if StartsBlockComment(rest) then InBlockComment
    else Normal
  }

  lemma {:induction false} LexCons(rest: string)
    requires rest != ""
    ensures var (l, tail) := First(rest); Lex(rest)[0] == l && Lex(rest)[1..] == Lex(tail)
  {
  }

  lemma {:induction false} ReadQuotedSuffix(quote: char, s: string)
    ensures var rest := ReadQuoted(quote, s).2; s[|s| - |rest|..] == rest
    decreases |s|
  {
    var rest := ReadQuoted(quote, s).2;
    if s == "" {
    } else if (s[0] == '\\' && |s| > 1) || (s[0] == quote && |s| > 1 && s[1] == quote) {
      ReadQuotedSuffix(quote, s[2..]);
    } else if s[0] != quote {
      ReadQuotedSuffix(quote, s[1..]);
    }
  }

  lemma {:induction false} FirstIsPending(rest: string)
    requires rest != "" && rest[0] != ';'
    ensures var n := 1 + Pending(Opened(rest), rest[1..]);
            First(rest).1 == rest[n..] && LexemeText(First(rest).0) == rest[..n] && !First(rest).0.Semicolon?
  {
    var n := 1 + Pending(Opened(rest), rest[1..]);
    FirstSound(rest);
    var (l, tail) := First(rest);
    if IsQuote(rest[0]) {
      ReadQuotedSuffix(rest[0], rest[1..]);
    }
    assert tail == rest[n..];
    assert rest == rest[..n] + rest[n..];
    assert LexemeText(l) == rest[..|rest| - |tail|];
  }

  lemma {:induction false} ResumeOpen(group: string, rest: string)
    requires rest != "" && rest[0] != ';'
    ensures Resume(Normal, group, rest) == Resume(Opened(rest), group + [rest[0]], rest[1..])
  {
    FirstIsPending(rest);
    LexCons(rest);
    var m := Pending(Opened(rest), rest[1..]);
    assert rest[1..][m..] == rest[1 + m..];
    assert group + rest[..1 + m] == group + [rest[0]] + rest[1..][..m];
    assert rest[0..] == rest && group + rest[..0] == group;
  }

  lemma {:induction false} ResumeCut(group: string, rest: string)
    requires rest != "" && rest[0] == ';'
    ensures Resume(Normal, group, rest) == [group] + Resume(Normal, "", rest[1..])
  {
    LexCons(rest);
    assert rest[0..] == rest && group + rest[..0] == group;
    assert rest[1..][0..] == rest[1..] && "" + rest[1..][..0] == "";
  }

  /** Advancing by `k` inside an open lexeme changes nothing of what is to come. */
  lemma {:induction false} ResumeAdvance(state: ScanState, next: ScanState, group: string, rest: string, k: nat)
    requires k <= Pending(state, rest) && Pending(next, rest[k..]) == Pending(state, rest) - k
    ensures Resume(state, group, rest) == Resume(next, group + rest[..k], rest[k..])
  {
    var n := Pending(state, rest);
    assert rest[k..][n - k..] == rest[n..];
    assert group + rest[..n] == group + rest[..k] + rest[k..][..n - k];
  }

  /** What is to come, seen from position `i` of `sql` with the last cut at `start`. */
  function ResumeAt(sql: string, start: nat, i: nat, state: ScanState): seq<string>
    requires start <= i <= |sql|
  {
    Resume(state, sql[start..i], sql[i..])
  }

  lemma {:induction false} StepNormal(sql: string, start: nat, i: nat)
    requires start <= i < |sql| && sql[i] != ';'
    ensures ResumeAt(sql, start, i, Normal) == ResumeAt(sql, start, i + 1, Opened(sql[i..]))
  {
    ResumeOpen(sql[start..i], sql[i..]);
    assert sql[start..i] + [sql[i..][0]] == sql[start..i + 1];
    assert sql[i..][1..] == sql[i + 1..];
  }

  lemma {:induction false} StepCut(sql: string, start: nat, i: nat)
    requires start <= i < |sql| && sql[i] == ';'
    ensures ResumeAt(sql, start, i, Normal) == [sql[start..i]] + ResumeAt(sql, i + 1, i + 1, Normal)
  {
    ResumeCut(sql[start..i], sql[i..]);
    assert sql[i..][1..] == sql[i + 1..] && sql[i + 1..i + 1] == "";
  }

  lemma {:induction false} SliceJoin(sql: string, start: nat, i: nat, j: nat)
    requires start <= i <= j <= |sql|
    ensures sql[start..i] + sql[i..][..j - i] == sql[start..j]
  {
  }

  lemma {:induction false} StepOpen(sql: string, start: nat, i: nat, state: ScanState, j: nat, next: ScanState)
    requires start <= i < j <= |sql|
    requires j - i <= Pending(state, sql[i..]) && Pending(next, sql[j..]) == Pending(state, sql[i..]) - (j - i)
    ensures ResumeAt(sql, start, i, state) == ResumeAt(sql, start, j, next)
  {
    var k := j - i;
    assert sql[i..][k..] == sql[j..];
    ResumeAdvance(state, next, sql[start..i], sql[i..], k);
    SliceJoin(sql, start, i, j);
  }

  lemma {:induction false} ResumeStart(sql: string)
    ensures ResumeAt(sql, 0, 0, Normal) == RawGroups(sql)
  {
    assert sql[0..] == sql && sql[0..0] == "" && "" + sql[..0] == "";
  }

  lemma {:induction false} ResumeEnd(sql: string, start: nat, state: ScanState)
    requires start <= |sql|
    ensures ResumeAt(sql, start, |sql|, state) == [sql[start..]]
  {
    var group := sql[start..];
    assert sql[|sql|..] == "" && sql[start..|sql|] == group;
    assert Pending(state, "") == 0;
    assert ""[0..] == "" && group + ""[..0] == group;
  }

  lemma {:induction false} HasCodeCons(rest: string)
    requires rest != ""
    ensures HasCode(rest) <==> IsCode(First(rest).0) || HasCode(First(rest).1)
  {
    LexCons(rest);
    var ls := Lex(rest);
    assert ls == [ls[0]] + ls[1..];
  }

  /** Whether code is met from `rest` on, beyond the lexeme that `state` says is open. */
  predicate CodeAhead(state: ScanState, rest: string) {
    HasCode(rest[Pending(state, rest)..])
  }

  lemma {:induction false} CodeStepNormal(rest: string)
    requires rest != ""
    ensures CodeAhead(Normal, rest) <==>
            if Opened(rest).InLineComment? || Opened(rest).InBlockComment? then CodeAhead(Opened(rest), rest[1..])
            else !IsBlank(rest[0]) || CodeAhead(Normal, rest[1..])
  {
    assert rest[0..] == rest && rest[1..][0..] == rest[1..];
    HasCodeCons(rest);
    if rest[0] != ';' {
      FirstIsPending(rest);
      var m := Pending(Opened(rest), rest[1..]);
      assert rest[1..][m..] == rest[1 + m..];
    }
  }

  lemma {:induction false} CodeStepComment(rest: string, state: ScanState, k: nat, next: ScanState)
    requires k <= Pending(state, rest) && Pending(next, rest[k..]) == Pending(state, rest) - k
    ensures CodeAhead(state, rest) == CodeAhead(next, rest[k..])
  {
    assert rest[Pending(state, rest)..] == rest[k..][Pending(next, rest[k..])..];
  }

  // ---------- the loops of the source ----------

  method StartsLineCommentAt(sql: string, index: nat) returns (r: bool)
    requires index < |sql| && sql[index] == '-'
    ensures r == StartsLineComment(sql[index..])
  {
    if index + 1 >= |sql| || sql[index + 1] != '-' {
      return false;
    }
    if index + 2 >= |sql| {
      return true;
    }
    return IsBlank(sql[index + 2]);
  }

  /** One pass of the loop body in the normal state, for a character that does not cut. */
  method ScanNormal(sql: string, i: nat) returns (next: ScanState)
    requires i < |sql| && sql[i] != ';'
    ensures next == Opened(sql[i..])
  {
    next := Normal;
    if sql[i] == '\'' {
      next := SingleQuote;
    } else if sql[i] == '"' {
      next := DoubleQuote;
    } else if sql[i] == '`' {
      next := Backtick;
    } else if sql[i] == '-' {
      var comment := StartsLineCommentAt(sql, i);
      if comment { next := InLineComment; }
    } else if sql[i] == '#' {
      next := InLineComment;
    } else if sql[i] == '/' {
      if i + 1 < |sql| && sql[i + 1] == '*' { next := InBlockComment; }
    }
  }

  /** One pass of the loop body while a literal is open: the new state and index. */
  method ScanLiteral(sql: string, i: nat, state: ScanState) returns (next: ScanState, j: nat)
    requires i < |sql| && InLiteral(state)
    ensures i < j <= |sql|
    ensures j - i <= Pending(state, sql[i..]) && Pending(next, sql[j..]) == Pending(state, sql[i..]) - (j - i)
  {
    ghost var rest := sql[i..];
    next, j := state, i;
    if sql[i] == '\\' && i + 1 < |sql| {
      assert rest[2..] == sql[i + 2..];
      j := j + 1;
    } else if sql[i] == QuoteOf(state) {
      if i + 1 < |sql| && sql[i + 1] == QuoteOf(state) {
        assert rest[2..] == sql[i + 2..];
        j := j + 1;
      } else {
        next := Normal;
      }
    }
    assert rest[1..] == sql[i + 1..];
    j := j + 1;
  }

  method ScanComment(sql: string, i: nat, state: ScanState) returns (next: ScanState, j: nat)
    requires i < |sql| && (state.InLineComment? || state.InBlockComment?)
    ensures i < j <= |sql| && (next == state || next == Normal)
    ensures j - i <= Pending(state, sql[i..]) && Pending(next, sql[j..]) == Pending(state, sql[i..]) - (j - i)
  {
    ghost var rest := sql[i..];
    next, j := state, i;
    if state.InLineComment? {
      if sql[i] == '\n' || sql[i] == '\r' {
        next := Normal;
      }
    } else if sql[i] == '*' && i + 1 < |sql| && sql[i + 1] == '/' {
      assert rest[2..] == sql[i + 2..];
      j := j + 1;
      next := Normal;
    }
    assert rest[1..] == sql[i + 1..];
    j := j + 1;
  }

  method ScanOpen(sql: string, i: nat, state: ScanState) returns (next: ScanState, j: nat)
    requires i < |sql| && !state.Normal?
    ensures i < j <= |sql|
    ensures j - i <= Pending(state, sql[i..]) && Pending(next, sql[j..]) == Pending(state, sql[i..]) - (j - i)
  {
    if InLiteral(state) {
      next, j := ScanLiteral(sql, i, state);
    } else {
      next, j := ScanComment(sql, i, state);
    }
  }

  /** One pass of the has-code loop in the normal state: code was met, or the new state. */
  method ScanForCode(sql: string, i: nat) returns (code: bool, next: ScanState)
    requires i < |sql|
    ensures !InLiteral(next)
    ensures CodeAhead(Normal, sql[i..]) == (code || CodeAhead(next, sql[i + 1..]))
  {
    CodeStepNormal(sql[i..]);
    assert sql[i..][1..] == sql[i + 1..];
    code, next := false, Normal;
    if !IsBlank(sql[i]) {
      if sql[i] == '-' {
        var comment := StartsLineCommentAt(sql, i);
        if comment { next := InLineComment; } else { code := true; }
      } else if sql[i] == '#' {
        next := InLineComment;
      } else if sql[i] == '/' && i + 1 < |sql| && sql[i + 1] == '*' {
        next := InBlockComment;
      } else {
        code := true;
      }
    }
  }

  method StatementGroupHasCode(sql: string) returns (code: bool)
    ensures code == HasCode(sql)
  {
    var state, i := Normal, 0;
    assert sql[0..] == sql && CodeAhead(Normal, sql) == HasCode(sql[0..]);
    while i < |sql|
      invariant 0 <= i <= |sql| && !InLiteral(state)
      invariant HasCode(sql) == CodeAhead(state, sql[i..])
    {
      if state.Normal? {
        var found, next := ScanForCode(sql, i);
        if found { return true; }
        state, i := next, i + 1;
      } else {
        var next, j := ScanComment(sql, i, state);
        assert sql[i..][j - i..] == sql[j..];
        CodeStepComment(sql[i..], state, j - i, next);
        state, i := next, j;
      }
    }
    assert sql[i..][Pending(state, sql[i..])..] == "";
    return false;
  }

  lemma {:induction false} TrimmedSnoc(groups: seq<string>, i: nat)
    requires i < |groups|
    ensures Trimmed(groups[..i]) + [TrimSpace(groups[i])] == Trimmed(groups[..i + 1])
  {
  }

  method CollectStatements(groups: seq<string>) returns (r: Result<seq<string>, SplitError>)
    requires groups != []
    ensures r == if Acceptable(groups) then Success(Trimmed(Kept(groups))) else Failure(InvalidStatementGroups)
  {
    var statements := [];
    assert Trimmed(groups[..0]) == [] && groups[..|groups|] == groups;
    for i := 0 to |groups|
      invariant forall k :: 0 <= k < i ==> Passes(groups, k)
      invariant statements == Trimmed(if i == |groups| then Kept(groups) else groups[..i])
    {
      TrimmedSnoc(groups, i);
      var code := StatementGroupHasCode(groups[i]);
      if code {
        statements := statements + [TrimSpace(groups[i])];
      } else if !(i == |groups| - 1 && |groups| > 1 && TrimSpace(groups[i]) == "") {
        assert !Passes(groups, i);
        return Failure(InvalidStatementGroups);
      }
    }
    assert Passes(groups, 0);
    // The first group passed and is not a blank last one, so this check of the source never fires.
    if |statements| == 0 {
      return Failure(InvalidStatementGroups);
    }
    return Success(statements);
  }

  method SplitStatementGroups(sql: string) returns (r: Result<seq<string>, SplitError>)
    ensures r == Split(sql)
  {
    var groups := [];
    var start, state, i := 0, Normal, 0;
    ResumeStart(sql);
    while i < |sql|
      invariant 0 <= start <= i <= |sql|
      invariant RawGroups(sql) == groups + ResumeAt(sql, start, i, state)
    {
      if state.Normal? {
        if sql[i] == ';' {
          StepCut(sql, start, i);
          SeqAssoc(groups, [sql[start..i]], ResumeAt(sql, i + 1, i + 1, Normal));
          groups := groups + [sql[start..i]];
          start := i + 1;
        } else {
          StepNormal(sql, start, i);
          state := ScanNormal(sql, i);
        }
        i := i + 1;
      } else {
        var next, j := ScanOpen(sql, i, state);
        StepOpen(sql, start, i, state, j, next);
        state, i := next, j;
      }
    }
    ResumeEnd(sql, start, state);
    groups := groups + [sql[start..]];
    r := CollectStatements(groups);
  }
}
