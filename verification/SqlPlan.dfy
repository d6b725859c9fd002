/** internal/sqlguard: analysed statements and plans. The dialect parsers are a parameter:
    `classify` gives the normalized text and class of one statement, or refuses it. */
module SqlPlan {
  import opened Text
  import opened Splitter
  import opened SplitterTheory

  datatype StatementKind = ReadOnly | Write | DDL | Session

  datatype Risk = LowRisk | HighRisk

  datatype Classified = Classified(
    normalizedSQL: string,
    kind: StatementKind,
    hasWhereClause: bool,
    requiresWhere: bool)

  datatype Statement = Statement(sql: string, facts: Classified)

  datatype Plan = Plan(statements: seq<Statement>, risk: Risk, readOnly: bool)

  type Classifier = string -> Option<Classified>

  datatype AnalysisError = UnsafeSQL

  const DEFAULT_MAX_STATEMENTS := 50

  /** DDL, or a write without the WHERE clause its kind requires. */
  predicate IsDangerous(facts: Classified) {
    facts.kind.DDL? || (facts.requiresWhere && !facts.hasWhereClause)
  }

  /** The plan of classified statements: high risk exactly when one is dangerous, read-only
      exactly when all are. */
  predicate IsPlanOf(plan: Plan, statements: seq<Statement>) {
    && plan.statements == statements
    && (plan.risk == HighRisk <==> exists i :: 0 <= i < |statements| && IsDangerous(statements[i].facts))
    && (plan.readOnly <==> forall i :: 0 <= i < |statements| ==> statements[i].facts.kind == ReadOnly)
  }

  function PlanOf(statements: seq<Statement>): (plan: Plan)
    ensures IsPlanOf(plan, statements)
  {
    Plan(statements,
         if exists i :: 0 <= i < |statements| && IsDangerous(statements[i].facts) then HighRisk else LowRisk,
         forall i :: 0 <= i < |statements| ==> statements[i].facts.kind == ReadOnly)
  }

  method MakePlan(statements: seq<Statement>) returns (plan: Plan)
    ensures plan == PlanOf(statements)
  {
    plan := Plan(statements, LowRisk, true);
    for i := 0 to |statements|
      invariant plan.statements == statements
      invariant plan.risk == HighRisk <==> exists k :: 0 <= k < i && IsDangerous(statements[k].facts)
      invariant plan.readOnly <==> forall k :: 0 <= k < i ==> statements[k].facts.kind == ReadOnly
    {
      var facts := statements[i].facts;
      if facts.kind != ReadOnly {
        plan := plan.(readOnly := false);
      }
      if facts.kind == DDL || (facts.requiresWhere && !facts.hasWhereClause) {
        plan := plan.(risk := HighRisk);
      }
    }
  }

  function RiskForAtomicBatches(plan: Plan, atomicBatches: bool): Risk {
    if !atomicBatches && |plan.statements| > 1 then HighRisk else plan.risk
  }

  // ---------- analysing a text ----------

  function ClassifyAll(classify: Classifier, pieces: seq<string>): Option<seq<Statement>> {
    if pieces == [] then Some([])
    else
      match classify(pieces[0])
      case None => None
      case Some(facts) =>
        match ClassifyAll(classify, pieces[1..])
        case None => None
        case Some(statements) => Some([Statement(pieces[0], facts)] + statements)
  }

  function Analyze(classify: Classifier, sql: string): Result<Plan, AnalysisError> {
    match Split(sql)
    case Failure(_) => Failure(UnsafeSQL)
    case Success(pieces) =>
      if |pieces| == 0 || |pieces| > DEFAULT_MAX_STATEMENTS then Failure(UnsafeSQL)
      else
        match ClassifyAll(classify, pieces)
        case None => Failure(UnsafeSQL)
        case Some(statements) => Success(PlanOf(statements))
  }

  lemma {:induction false} ClassifyAllSound(classify: Classifier, pieces: seq<string>)
    ensures ClassifyAll(classify, pieces).Some? <==> forall i :: 0 <= i < |pieces| ==> classify(pieces[i]).Some?
    ensures ClassifyAll(classify, pieces).Some? ==>
              var statements := ClassifyAll(classify, pieces).value;
              |statements| == |pieces| &&
              forall i :: 0 <= i < |pieces| ==>
                classify(pieces[i]) == Some(statements[i].facts) && statements[i].sql == pieces[i]
  {
    if pieces == [] {
    } else {
      ClassifyAllSound(classify, pieces[1..]);
      assert pieces == [pieces[0]] + pieces[1..];
    }
  }

  /** A text is accepted exactly when it splits into at most 50 statements, each of them
      classified. */
  lemma {:induction false} AnalyzeExact(classify: Classifier, sql: string)
    ensures Analyze(classify, sql).Success? <==>
            && Split(sql).Success? && |Split(sql).value| <= 50
            && forall i :: 0 <= i < |Split(sql).value| ==> classify(Split(sql).value[i]).Some?
    ensures Analyze(classify, sql).Success? ==>
              var plan, pieces := Analyze(classify, sql).value, Split(sql).value;
              && |plan.statements| == |pieces|
              && forall i :: 0 <= i < |pieces| ==>
                   plan.statements[i].sql == pieces[i] && Some(plan.statements[i].facts) == classify(pieces[i])
  {
    if Split(sql).Success? {
      SplitDropsNothing(sql);
      ClassifyAllSound(classify, Split(sql).value);
    }
  }

  lemma {:induction false} AllClassified(classify: Classifier, pieces: seq<string>, statements: seq<Statement>)
    requires |statements| == |pieces|
    requires forall i :: 0 <= i < |pieces| ==>
               classify(pieces[i]) == Some(statements[i].facts) && statements[i].sql == pieces[i]
    ensures ClassifyAll(classify, pieces) == Some(statements)
  {
    ClassifyAllSound(classify, pieces);
    var all := ClassifyAll(classify, pieces).value;
    assert forall i :: 0 <= i < |pieces| ==> all[i] == statements[i];
    assert all == statements;
  }

  method AnalyzeStatements(classify: Classifier, sql: string) returns (r: Result<Plan, AnalysisError>)
    ensures r == Analyze(classify, sql)
  {
    var split := SplitStatementGroups(sql);
    if split.Failure? || |split.value| == 0 || |split.value| > DEFAULT_MAX_STATEMENTS {
      return Failure(UnsafeSQL);
    }
    var pieces := split.value;
    var statements: seq<Statement> := [];
    for i := 0 to |pieces|
      invariant |statements| == i
      invariant forall k :: 0 <= k < i ==>
                  classify(pieces[k]) == Some(statements[k].facts) && statements[k].sql == pieces[k]
    {
      match classify(pieces[i])
      case None =>
        ClassifyAllSound(classify, pieces);
        return Failure(UnsafeSQL);
      case Some(facts) => statements := statements + [Statement(pieces[i], facts)];
    }
    AllClassified(classify, pieces, statements);
    var plan := MakePlan(statements);
    return Success(plan);
  }

  /** An accepted analysis covers the input: its statements are the trimmed raw groups in
      order, at most one blank last group aside, each one classified, at most 50 of them. */
  lemma {:induction false} AnalyzeCoversInput(classify: Classifier, sql: string)
    requires Analyze(classify, sql).Success?
    ensures var plan, groups := Analyze(classify, sql).value, RawGroups(sql);
            && Join(groups, ";") == sql
            && 1 <= |plan.statements| <= DEFAULT_MAX_STATEMENTS
            && |plan.statements| <= |groups| <= |plan.statements| + 1
            && (|groups| > |plan.statements| ==> TrimSpace(groups[|plan.statements|]) == "")
            && (forall i :: 0 <= i < |plan.statements| ==>
                  && plan.statements[i].sql == TrimSpace(groups[i])
                  && classify(TrimSpace(groups[i])) == Some(plan.statements[i].facts))
            && IsPlanOf(plan, plan.statements)
  {
    SplitDropsNothing(sql);
    ClassifyAllSound(classify, Split(sql).value);
  }
}
