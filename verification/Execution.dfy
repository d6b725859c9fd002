/** internal/execution/executor.go: running an analysed plan, in one transaction or
    statement by statement. The database driver is an oracle: what a call does may depend
    on the state, the call and how many calls came before. Any pattern of failures is
    possible, time-outs included: a statement that reports an error may have been carried
    out all the same, wholly or in part. */
module Execution {
  import opened Text
  import opened Json
  import opened SqlPlan

  /** A statement that reports an error leaves some state behind, changed or not. */
  datatype Effect<+S> = Failed(left: S) | Done(state: S, rowsAffected: Option<int>, lastInsertID: Option<int>)

  /** What a query leaves behind, and whether its rows could be read. */
  datatype Answer<+S> = Answer(left: S, ok: bool)

  /** A commit that reports an error may have reached the database all the same. */
  datatype CommitResult = Committed | CommitRefused | CommitUnacknowledged

  datatype Driver<!S> = Driver(
    query: (nat, S, string, seq<Value>) -> Answer<S>,
    exec: (nat, S, string, seq<Value>) -> Effect<S>,
    begin: nat -> bool,
    commit: nat -> CommitResult,
    rollback: nat -> bool)

  datatype StatementResult = StatementResult(index: nat, rowsAffected: Option<int>, lastInsertID: Option<int>)

  datatype ExecuteResult = ExecuteResult(statements: seq<StatementResult>, atomic: bool)

  datatype ExecuteError =
    | InvalidPlan
    | AmbiguousBatchArgs
    | NilDatabase
    | NilSourceDatabase
    | QueryFailed
    | BeginFailed
    | StatementFailed(index: nat, rolledBack: bool)
    | CommitFailed

  /** A statement text and its parameters, as they reach the driver. */
  type DriverCall = (string, seq<Value>)

  // ---------- pure parts ----------

  /** Parameters bind to the first statement only. */
  function ExecutionArgs(index: nat, args: Parameters): seq<Value> {
    if index == 0 then ParameterList(args) else []
  }

  predicate AllWrites(statements: seq<Statement>) {
    forall i :: 0 <= i < |statements| ==> statements[i].facts.kind == Write
  }

  predicate IsAtomicBatch(atomicBatches: bool, plan: Plan) {
    atomicBatches && AllWrites(plan.statements)
  }

  predicate IsExecutable(statement: Statement) {
    TrimSpace(statement.facts.normalizedSQL) != "" && (statement.facts.kind == Write || statement.facts.kind == DDL)
  }

  predicate IsValidPlan(plan: Plan) {
    plan.statements != [] && forall i :: 0 <= i < |plan.statements| ==> IsExecutable(plan.statements[i])
  }

  // ---------- running statements against a state ----------

  function StateAfter<S>(effect: Effect<S>): S {
    match effect
    case Failed(left) => left
    case Done(state, _, _) => state
  }

  /** What one statement does, when `clock` driver calls came before it. */
  function Effect1<S>(driver: Driver<S>, clock: nat, s: S, statements: seq<Statement>, i: nat,
                      args: Parameters): Effect<S>
    requires i < |statements|
  {
    driver.exec(clock, s, statements[i].facts.normalizedSQL, ExecutionArgs(i, args))
  }

  datatype Run<+S> = Run(state: S, results: seq<StatementResult>, ok: bool)

  /** Runs statements from index `i` until one fails. */
  function RunFrom<S>(driver: Driver<S>, clock: nat, s: S, statements: seq<Statement>, i: nat, args: Parameters): Run<S>
    requires i <= |statements|
    decreases |statements| - i
  {
    if i == |statements| then Run(s, [], true)
    else
      match Effect1(driver, clock, s, statements, i, args)
      case Failed(left) => Run(left, [], false)
      case Done(next, rows, id) =>
        var rest := RunFrom(driver, clock + 1, next, statements, i + 1, args);
        Run(rest.state, [StatementResult(i, rows, id)] + rest.results, rest.ok)
  }

  function Attempt(statements: seq<Statement>, i: nat, args: Parameters): DriverCall
    requires i < |statements|
  {
    (statements[i].facts.normalizedSQL, ExecutionArgs(i, args))
  }

  /** The driver calls of the first `n` statements. */
  function Attempts(statements: seq<Statement>, n: nat, args: Parameters): seq<DriverCall>
    requires n <= |statements|
  {
    seq(n, i requires 0 <= i < n => Attempt(statements, i, args))
  }

  /** Statements are sent in order as normalized, and parameters with the first one only. */
  lemma {:induction false} ParametersComeFirst(statements: seq<Statement>, n: nat, args: Parameters)
    requires n <= |statements|
    ensures var attempts := Attempts(statements, n, args);
            && |attempts| == n
            && (forall i :: 0 <= i < n ==> attempts[i].0 == statements[i].facts.normalizedSQL)
            && (n > 0 ==> attempts[0].1 == (match args case None => [] case Some(values) => values))
            && forall i :: 1 <= i < n ==> attempts[i].1 == []
  {
  }

  /** How many statements a run tried: the successful ones and the failed one, if any. */
  function Tried(run: Run): nat {
    |run.results| + (if run.ok then 0 else 1)
  }

  lemma {:induction false} RunLength<S>(driver: Driver<S>, clock: nat, s: S, statements: seq<Statement>, i: nat,
                                        args: Parameters)
    requires i <= |statements|
    ensures var run := RunFrom(driver, clock, s, statements, i, args);
            && i + Tried(run) <= |statements|
            && (run.ok <==> i + |run.results| == |statements|)
            && (forall k :: 0 <= k < |run.results| ==> run.results[k].index == i + k)
    decreases |statements| - i
  {
    if i == |statements| {
    } else {
      match Effect1(driver, clock, s, statements, i, args)
      case Failed(_) =>
      case Done(next, _, _) =>
        RunLength(driver, clock + 1, next, statements, i + 1, args);
    }
  }

  /** One pass of the statement loop. */
  lemma {:induction false} RunStep<S>(driver: Driver<S>, clock: nat, s: S, statements: seq<Statement>, i: nat,
                                      args: Parameters, done: seq<StatementResult>)
    requires i < |statements|
    ensures var run := RunFrom(driver, clock, s, statements, i, args);
            match Effect1(driver, clock, s, statements, i, args)
            case Failed(left) => Run(run.state, done + run.results, run.ok) == Run(left, done, false)
            case Done(next, rows, id) =>
              var rest := RunFrom(driver, clock + 1, next, statements, i + 1, args);
              Run(run.state, done + run.results, run.ok) ==
              Run(rest.state, done + [StatementResult(i, rows, id)] + rest.results, rest.ok)
  {
    match Effect1(driver, clock, s, statements, i, args)
    case Failed(_) => assert done + [] == done;
    case Done(next, rows, id) =>
      SeqAssoc(done, [StatementResult(i, rows, id)], RunFrom(driver, clock + 1, next, statements, i + 1, args).results);
  }

  lemma {:induction false} AttemptsGrow(earlier: seq<DriverCall>, statements: seq<Statement>, i: nat, args: Parameters)
    requires i < |statements|
    ensures earlier + Attempts(statements, i, args) + [Attempt(statements, i, args)] ==
            earlier + Attempts(statements, i + 1, args)
  {
    assert Attempts(statements, i, args) + [Attempt(statements, i, args)] == Attempts(statements, i + 1, args);
    SeqAssoc(earlier, Attempts(statements, i, args), [Attempt(statements, i, args)]);
  }

  // ---------- what executing a plan does ----------

  /** Durable state, reply and driver calls of one execution, `clock` calls having been made
      in the end; `open` is a transaction that a failed rollback left behind. */
  datatype Outcome<+S> = Outcome(
    durable: S,
    open: Option<S>,
    clock: nat,
    result: ExecuteResult,
    error: Option<ExecuteError>,
    attempts: seq<DriverCall>)

  function SequentialOutcome<S>(driver: Driver<S>, clock: nat, s: S, statements: seq<Statement>,
                                args: Parameters): Outcome<S> {
    RunLength(driver, clock, s, statements, 0, args);
    var run := RunFrom(driver, clock, s, statements, 0, args);
    Outcome(run.state, None, clock + Tried(run), ExecuteResult(run.results, false),
            if run.ok then None else Some(StatementFailed(|run.results|, false)),
            Attempts(statements, Tried(run), args))
  }

  function AtomicOutcome<S>(driver: Driver<S>, clock: nat, s: S, statements: seq<Statement>,
                            args: Parameters): Outcome<S> {
    if !driver.begin(clock) then Outcome(s, None, clock + 1, ExecuteResult([], true), Some(BeginFailed), [])
    else
      RunLength(driver, clock + 1, s, statements, 0, args);
      var run := RunFrom(driver, clock + 1, s, statements, 0, args);
      var result, attempts := ExecuteResult(run.results, true), Attempts(statements, Tried(run), args);
      var last := clock + 1 + Tried(run);
      if !run.ok then
        var rolledBack := driver.rollback(last);
        Outcome(s, if rolledBack then None else Some(run.state), last + 1, result,
                Some(StatementFailed(|run.results|, rolledBack)), attempts)
      else
        match driver.commit(last)
        case Committed => Outcome(run.state, None, last + 1, result, None, attempts)
        case CommitRefused => Outcome(s, None, last + 1, result, Some(CommitFailed), attempts)
        case CommitUnacknowledged => Outcome(run.state, None, last + 1, result, Some(CommitFailed), attempts)
  }

  /** A query is one call, outside any transaction. Its rows are not part of this model. */
  function QueryOutcome<S>(driver: Driver<S>, clock: nat, s: S, connected: bool, statement: string,
                           args: Parameters): Outcome<S> {
    var none := ExecuteResult([], false);
    if !connected then Outcome(s, None, clock, none, Some(NilDatabase), [])
    else
      var answer := driver.query(clock, s, statement, ParameterList(args));
      Outcome(answer.left, None, clock + 1, none, if answer.ok then None else Some(QueryFailed),
              [(statement, ParameterList(args))])
  }

  function PlanOutcome<S>(driver: Driver<S>, clock: nat, s: S, connected: bool, atomicBatches: bool, plan: Plan,
                          args: Parameters): Outcome<S> {
    var none := ExecuteResult([], false);
    if !IsValidPlan(plan) then Outcome(s, None, clock, none, Some(InvalidPlan), [])
    else if |plan.statements| > 1 && ParameterList(args) != [] then
      Outcome(s, None, clock, none, Some(AmbiguousBatchArgs), [])
    else if !connected then Outcome(s, None, clock, none, Some(NilSourceDatabase), [])
    else if IsAtomicBatch(atomicBatches, plan) then
      AtomicOutcome(driver, clock, s, plan.statements, args).(open := None)
    else SequentialOutcome(driver, clock, s, plan.statements, args)
  }

  // ---------- the database and its methods ----------

  class Database<S> {
    const driver: Driver<S>
    var durable: S
    var transaction: Option<S>
    var calls: nat
    var attempts: seq<DriverCall>

    constructor (driver: Driver<S>, durable: S)
      ensures this.driver == driver && this.durable == durable && transaction == None && calls == 0 && attempts == []
    {
      this.driver := driver;
      this.durable := durable;
      transaction := None;
      calls := 0;
      attempts := [];
    }

    method BeginTx() returns (ok: bool)
      requires transaction == None
      modifies this
      ensures ok == driver.begin(old(calls)) && transaction == if ok then Some(durable) else None
      ensures calls == old(calls) + 1 && durable == old(durable) && attempts == old(attempts)
    {
      ok := driver.begin(calls);
      if ok { transaction := Some(durable); }
      calls := calls + 1;
    }

    /** One statement, inside the open transaction or directly on the durable state. */
    method Exec(statement: string, args: seq<Value>) returns (effect: Effect<S>)
      modifies this
      ensures var s := if old(transaction).Some? then old(transaction).value else old(durable);
              effect == driver.exec(old(calls), s, statement, args)
      ensures calls == old(calls) + 1 && attempts == old(attempts) + [(statement, args)]
      ensures old(transaction).Some? ==> durable == old(durable) && transaction == Some(StateAfter(effect))
      ensures old(transaction).None? ==> durable == StateAfter(effect) && transaction == None
    {
      var s := if transaction.Some? then transaction.value else durable;
      effect := driver.exec(calls, s, statement, args);
      calls := calls + 1;
      attempts := attempts + [(statement, args)];
      if transaction.Some? {
        transaction := Some(StateAfter(effect));
      } else {
        durable := StateAfter(effect);
      }
    }

    method Commit() returns (ok: bool)
      requires transaction.Some?
      modifies this
      ensures ok == (driver.commit(old(calls)) == Committed) && transaction == None
      ensures durable == if driver.commit(old(calls)) == CommitRefused then old(durable) else old(transaction).value
      ensures calls == old(calls) + 1 && attempts == old(attempts)
    {
      var result := driver.commit(calls);
      if result != CommitRefused { durable := transaction.value; }
      transaction := None;
      calls := calls + 1;
      ok := result == Committed;
    }

    /** A failed rollback leaves the transaction open and the durable state alone. */
    method Rollback() returns (ok: bool)
      requires transaction.Some?
      modifies this
      ensures ok == driver.rollback(old(calls)) && transaction == if ok then None else old(transaction)
      ensures calls == old(calls) + 1 && durable == old(durable) && attempts == old(attempts)
    {
      ok := driver.rollback(calls);
      if ok { transaction := None; }
      calls := calls + 1;
    }

    /** What this execution must leave behind, seen from the state before it. */
    ghost predicate Leaves(outcome: Outcome<S>, result: ExecuteResult, error: Option<ExecuteError>,
                           earlier: seq<DriverCall>)
      reads this
    {
      && durable == outcome.durable && transaction == outcome.open && calls == outcome.clock
      && result == outcome.result && error == outcome.error
      && attempts == earlier + outcome.attempts
    }

    method Query(connected: bool, statement: string, args: Parameters) returns (error: Option<ExecuteError>)
      requires transaction == None
      modifies this
      ensures Leaves(QueryOutcome(driver, old(calls), old(durable), connected, statement, args),
                     ExecuteResult([], false), error, old(attempts))
    {
      if !connected {
        return Some(NilDatabase);
      }
      var answer := driver.query(calls, durable, statement, ParameterList(args));
      durable := answer.left;
      calls := calls + 1;
      attempts := attempts + [(statement, ParameterList(args))];
      error := if answer.ok then None else Some(QueryFailed);
    }

    /** The statement loop, on the open transaction or on the durable state. */
    method ExecuteStatements(statements: seq<Statement>, args: Parameters)
      returns (results: seq<StatementResult>, ok: bool)
      modifies this
      ensures var s := if old(transaction).Some? then old(transaction).value else old(durable);
              var run := RunFrom(driver, old(calls), s, statements, 0, args);
              && Tried(run) <= |statements|
              && results == run.results && ok == run.ok
              && transaction == (if old(transaction).Some? then Some(run.state) else None)
              && durable == (if old(transaction).Some? then old(durable) else run.state)
              && attempts == old(attempts) + Attempts(statements, Tried(run), args)
              && calls == old(calls) + Tried(run)
    {
      ghost var inTx := transaction.Some?;
      ghost var start := if inTx then transaction.value else durable;
      ghost var run := RunFrom(driver, calls, start, statements, 0, args);
      RunLength(driver, calls, start, statements, 0, args);
      results, ok := [], true;
      for index := 0 to |statements|
        invariant transaction.Some? == inTx && (inTx ==> durable == old(durable)) && ok && |results| == index
        invariant calls == old(calls) + index && attempts == old(attempts) + Attempts(statements, index, args)
        invariant var s := if inTx then transaction.value else durable;
                  var rest := RunFrom(driver, calls, s, statements, index, args);
                  run == Run(rest.state, results + rest.results, rest.ok)
      {
        RunStep(driver, calls, if inTx then transaction.value else durable, statements, index, args, results);
        AttemptsGrow(old(attempts), statements, index, args);
        var effect := Exec(statements[index].facts.normalizedSQL, ExecutionArgs(index, args));
        match effect {
          case Failed(_) =>
            ok := false;
            return;
          case Done(next, rows, id) =>
            results := results + [StatementResult(index, rows, id)];
        }
      }
    }

    method ExecuteSequentially(statements: seq<Statement>, args: Parameters)
      returns (result: ExecuteResult, error: Option<ExecuteError>)
      requires transaction == None
      modifies this
      ensures Leaves(SequentialOutcome(driver, old(calls), old(durable), statements, args),
                     result, error, old(attempts))
    {
      var results, ok := ExecuteStatements(statements, args);
      result := ExecuteResult(results, false);
      error := if ok then None else Some(StatementFailed(|results|, false));
    }

    method ExecuteAtomically(statements: seq<Statement>, args: Parameters)
      returns (result: ExecuteResult, error: Option<ExecuteError>)
      requires transaction == None
      modifies this
      ensures Leaves(AtomicOutcome(driver, old(calls), old(durable), statements, args), result, error, old(attempts))
    {
      var begun := BeginTx();
      if !begun {
        return ExecuteResult([], true), Some(BeginFailed);
      }
      var results, ok := ExecuteStatements(statements, args);
      result := ExecuteResult(results, true);
      if !ok {
        var rolledBack := Rollback();
        return result, Some(StatementFailed(|results|, rolledBack));
      }
      var committed := Commit();
      error := if committed then None else Some(CommitFailed);
    }

    /** The deferred cancel of the execution context: an open transaction is abandoned. */
    method Cancel()
      modifies this
      ensures transaction == None
      ensures durable == old(durable) && calls == old(calls) && attempts == old(attempts)
    {
      transaction := None;
    }

    method ExecutePlan(connected: bool, atomicBatches: bool, plan: Plan, args: Parameters)
      returns (result: ExecuteResult, error: Option<ExecuteError>)
      requires transaction == None
      modifies this
      ensures Leaves(PlanOutcome(driver, old(calls), old(durable), connected, atomicBatches, plan, args),
                     result, error, old(attempts))
    {
      result := ExecuteResult([], false);
      if !IsValidPlan(plan) {
        return result, Some(InvalidPlan);
      }
      if |plan.statements| > 1 && |ParameterList(args)| > 0 {
        return result, Some(AmbiguousBatchArgs);
      }
      if !connected {
        return result, Some(NilSourceDatabase);
      }
      if IsAtomicBatch(atomicBatches, plan) {
        result, error := ExecuteAtomically(plan.statements, args);
        Cancel();
      } else {
        result, error := ExecuteSequentially(plan.statements, args);
      }
    }
  }

  // ---------- all or nothing, longest prefix, agreement ----------

  /** Statement `k` succeeds and takes state `k` to state `k + 1`. */
  ghost predicate Succeeds<S>(driver: Driver<S>, clock: nat, states: seq<S>, statements: seq<Statement>,
                              args: Parameters, k: nat)
    requires k < |statements| && k + 1 < |states|
  {
    var effect := Effect1(driver, clock + k, states[k], statements, k, args);
    effect.Done? && effect.state == states[k + 1]
  }

  /** `states` are the successive states of the first statements, all successful, starting
      at `s` with `clock` driver calls made; and either they are all statements or the next fails. */
  ghost predicate IsLongestRun<S>(driver: Driver<S>, clock: nat, states: seq<S>, statements: seq<Statement>,
                                  args: Parameters) {
    && 1 <= |states| <= |statements| + 1
    && (forall k: nat :: k < |states| - 1 ==> Succeeds(driver, clock, states, statements, args, k))
    && (|states| <= |statements| ==>
          Effect1(driver, clock + |states| - 1, states[|states| - 1], statements, |states| - 1, args).Failed?)
  }

  lemma {:induction false} RunFollowsStates<S>(driver: Driver<S>, clock: nat, states: seq<S>,
                                               statements: seq<Statement>, args: Parameters, i: nat)
    requires IsLongestRun(driver, clock, states, statements, args) && i < |states|
    ensures var run, k := RunFrom(driver, clock + i, states[i], statements, i, args), |states| - 1;
            && (run.ok <==> k == |statements|)
            && run.state ==
                 (if run.ok then states[k] else Effect1(driver, clock + k, states[k], statements, k, args).left)
            && |run.results| == k - i
    decreases |states| - i
  {
    if i == |states| - 1 {
    } else {
      assert Succeeds(driver, clock, states, statements, args, i);
      RunFollowsStates(driver, clock, states, statements, args, i + 1);
    }
  }

  /** Statement `j` of a run did succeed, and `results[j]` reports what the driver answered. */
  ghost predicate IsReported<S>(driver: Driver<S>, clock: nat, states: seq<S>, statements: seq<Statement>,
                                args: Parameters, results: seq<StatementResult>, j: nat)
    requires j < |statements| && j < |states|
  {
    var effect := Effect1(driver, clock + j, states[j], statements, j, args);
    effect.Done? && j < |results| && results[j] == StatementResult(j, effect.rowsAffected, effect.lastInsertID)
  }

  lemma {:induction false} ResultsAreReported<S>(driver: Driver<S>, clock: nat, states: seq<S>,
                                                 statements: seq<Statement>, args: Parameters, i: nat,
                                                 earlier: seq<StatementResult>, j: nat)
    requires IsLongestRun(driver, clock, states, statements, args) && i <= j < |states| - 1 && |earlier| == i
    ensures IsReported(driver, clock, states, statements, args,
                       earlier + RunFrom(driver, clock + i, states[i], statements, i, args).results, j)
    decreases j - i
  {
    var results := RunFrom(driver, clock + i, states[i], statements, i, args).results;
    assert Succeeds(driver, clock, states, statements, args, i);
    if i < j {
      ResultsAreReported(driver, clock, states, statements, args, i + 1, earlier + [results[0]], j);
      SeqAssoc(earlier, [results[0]], results[1..]);
      assert results == [results[0]] + results[1..];
    }
  }

  lemma {:induction false} ResultIsReported<S>(driver: Driver<S>, clock: nat, states: seq<S>,
                                               statements: seq<Statement>, args: Parameters, j: nat)
    requires IsLongestRun(driver, clock, states, statements, args) && j < |states| - 1
    ensures IsReported(driver, clock, states, statements, args,
                       RunFrom(driver, clock, states[0], statements, 0, args).results, j)
  {
    var results := RunFrom(driver, clock, states[0], statements, 0, args).results;
    ResultsAreReported(driver, clock, states, statements, args, 0, [], j);
    assert [] + results == results;
  }

  /** `results` are the driver's answers to the statements of a run, each in its place. */
  ghost predicate AreReported<S>(driver: Driver<S>, clock: nat, states: seq<S>, statements: seq<Statement>,
                                 args: Parameters, results: seq<StatementResult>)
    requires |states| <= |statements| + 1
  {
    |results| == |states| - 1 &&
    forall j: nat :: j < |results| ==> IsReported(driver, clock, states, statements, args, results, j)
  }

  lemma {:induction false} RunIsReported<S>(driver: Driver<S>, clock: nat, states: seq<S>,
                                            statements: seq<Statement>, args: Parameters)
    requires IsLongestRun(driver, clock, states, statements, args)
    ensures AreReported(driver, clock, states, statements, args,
                        RunFrom(driver, clock, states[0], statements, 0, args).results)
  {
    RunFollowsStates(driver, clock, states, statements, args, 0);
    var results := RunFrom(driver, clock, states[0], statements, 0, args).results;
    forall j: nat | j < |results|
      ensures IsReported(driver, clock, states, statements, args, results, j)
    {
      ResultIsReported(driver, clock, states, statements, args, j);
    }
  }

  /** Statement by statement: the durable state is what the one failed statement left of the
      state after the longest successful prefix. It is that state if and only if nothing
      failed or the failed statement changed nothing. Results are numbered 0, 1, ..., and no
      statement is tried after a failure. */
  lemma {:induction false} SequentialLeavesLongestPrefix<S>(driver: Driver<S>, clock: nat, states: seq<S>,
                                                            statements: seq<Statement>, args: Parameters)
    requires IsLongestRun(driver, clock, states, statements, args)
    ensures var outcome, k := SequentialOutcome(driver, clock, states[0], statements, args), |states| - 1;
            && outcome.open == None
            && (k == |statements| ==> outcome.durable == states[k] && outcome.error == None)
            && (k < |statements| ==>
                  var effect := Effect1(driver, clock + k, states[k], statements, k, args);
                  && outcome.durable == effect.left
                  && (outcome.durable == states[k] <==> effect == Failed(states[k]))
                  && outcome.error == Some(StatementFailed(k, false)))
            && |outcome.result.statements| == k
            && AreReported(driver, clock, states, statements, args, outcome.result.statements)
            && outcome.attempts == Attempts(statements, if k == |statements| then k else k + 1, args)
  {
    RunIsReported(driver, clock, states, statements, args);
    RunFollowsStates(driver, clock, states, statements, args, 0);
    RunLength(driver, clock, states[0], statements, 0, args);
  }

  /** In a transaction: after any pattern of failures the durable state is the initial one
      or the one after all statements, whatever a failed statement left behind and whether
      or not it could be rolled back. Success means all; a failed statement, a failed
      begin or a refused commit mean nothing. Only a commit that was carried out but not
      acknowledged reports an error with everything applied. */
  lemma {:induction false} AtomicAllOrNothing<S>(driver: Driver<S>, clock: nat, states: seq<S>,
                                                 statements: seq<Statement>, args: Parameters)
    requires IsLongestRun(driver, clock + 1, states, statements, args)
    ensures var outcome, last := AtomicOutcome(driver, clock, states[0], statements, args), |states| - 1;
            var commit := driver.commit(clock + 1 + |statements|);
            && (outcome.error == None <==> driver.begin(clock) && last == |statements| && commit == Committed)
            && outcome.durable == (if driver.begin(clock) && last == |statements| && commit != CommitRefused
                                   then states[last] else states[0])
            && (outcome.error != None ==>
                  outcome.durable == states[0] || (last == |statements| && commit == CommitUnacknowledged))
            && (driver.begin(clock) && last < |statements| ==>
                  outcome.durable == states[0] &&
                  outcome.error == Some(StatementFailed(last, driver.rollback(clock + 2 + last))) &&
                  outcome.attempts == Attempts(statements, last + 1, args) &&
                  (outcome.open == None <==> driver.rollback(clock + 2 + last)))
            && (outcome.error == None ==>
                  outcome.open == None && |outcome.result.statements| == |statements| &&
                  outcome.attempts == Attempts(statements, |statements|, args) &&
                  AreReported(driver, clock + 1, states, statements, args, outcome.result.statements))
            && (!driver.begin(clock) ==> outcome.error == Some(BeginFailed) && outcome.attempts == [])
            && (driver.begin(clock) && last == |statements| && commit != Committed ==>
                  outcome.error == Some(CommitFailed))
  {
    RunIsReported(driver, clock + 1, states, statements, args);
    RunFollowsStates(driver, clock + 1, states, statements, args, 0);
    RunLength(driver, clock + 1, states[0], statements, 0, args);
  }

  /** Whether a plan is one the executor tries. */
  predicate IsTried(plan: Plan, args: Parameters) {
    && plan.statements != []
    && (forall i :: 0 <= i < |plan.statements| ==> TrimSpace(plan.statements[i].facts.normalizedSQL) != "")
    && (|plan.statements| == 1 || ParameterList(args) == [])
  }

  /** Writes alone, on a source with atomic batches: the plan runs in one transaction, whose
      durable state is the initial one or the one after all statements. */
  lemma {:induction false} WritesRunAtomically<S>(driver: Driver<S>, clock: nat, states: seq<S>, plan: Plan,
                                                  args: Parameters)
    requires IsTried(plan, args) && forall i :: 0 <= i < |plan.statements| ==> plan.statements[i].facts.kind == Write
    requires IsLongestRun(driver, clock + 1, states, plan.statements, args)
    ensures var outcome := PlanOutcome(driver, clock, states[0], true, true, plan, args);
            var last, commit := |states| - 1, driver.commit(clock + 1 + |plan.statements|);
            && outcome.result.atomic && outcome.open == None
            && outcome.durable == (if driver.begin(clock) && last == |plan.statements| && commit != CommitRefused
                                   then states[last] else states[0])
            && (outcome.error == None <==> driver.begin(clock) && last == |plan.statements| && commit == Committed)
            && (outcome.error == None ==> |outcome.result.statements| == |plan.statements|)
            && (driver.begin(clock) ==>
                  var tried := if last == |plan.statements| then last else last + 1;
                  outcome.attempts == Attempts(plan.statements, tried, args))
  {
    AtomicAllOrNothing(driver, clock, states, plan.statements, args);
    RunFollowsStates(driver, clock + 1, states, plan.statements, args, 0);
  }

  /** With a DDL statement, or without atomic batches, the plan runs statement by statement:
      the durable state is what the failed statement, if any, left of the state after the
      longest successful prefix. */
  lemma {:induction false} OthersRunInSequence<S>(driver: Driver<S>, clock: nat, states: seq<S>, atomicBatches: bool,
                                                  plan: Plan, args: Parameters)
    requires IsTried(plan, args)
    requires forall i :: 0 <= i < |plan.statements| ==>
               plan.statements[i].facts.kind == Write || plan.statements[i].facts.kind == DDL
    requires atomicBatches ==> exists i :: 0 <= i < |plan.statements| && plan.statements[i].facts.kind == DDL
    requires IsLongestRun(driver, clock, states, plan.statements, args)
    ensures var outcome := PlanOutcome(driver, clock, states[0], true, atomicBatches, plan, args);
            var last := |states| - 1;
            && !outcome.result.atomic && outcome.open == None
            && (last == |plan.statements| ==> outcome.durable == states[last] && outcome.error == None)
            && (last < |plan.statements| ==>
                  && outcome.durable == Effect1(driver, clock + last, states[last], plan.statements, last, args).left
                  && outcome.error == Some(StatementFailed(last, false)))
            && |outcome.result.statements| == last
            && outcome.attempts == Attempts(plan.statements, if last == |plan.statements| then last else last + 1, args)
  {
    SequentialLeavesLongestPrefix(driver, clock, states, plan.statements, args);
  }

  /** Every run has its states, so the two lemmas above cover every execution. */
  lemma {:induction false} LongestRunExists<S>(driver: Driver<S>, clock: nat, s: S, statements: seq<Statement>,
                                               args: Parameters)
    returns (states: seq<S>)
    ensures IsLongestRun(driver, clock, states, statements, args) && states[0] == s
  {
    states := [s];
    while |states| <= |statements| &&
          Effect1(driver, clock + |states| - 1, states[|states| - 1], statements, |states| - 1, args).Done?
      invariant 1 <= |states| <= |statements| + 1 && states[0] == s
      invariant forall k: nat :: k < |states| - 1 ==> Succeeds(driver, clock, states, statements, args, k)
      decreases |statements| + 1 - |states|
    {
      var last := |states| - 1;
      var next := states + [Effect1(driver, clock + last, states[last], statements, last, args).state];
      forall k: nat | k < |next| - 1
        ensures Succeeds(driver, clock, next, statements, args, k)
      {
        if k < last { assert Succeeds(driver, clock, states, statements, args, k); }
      }
      states := next;
    }
  }

  /** Along the run from `s`, each statement does the same when `later` calls came before
      it as when `clock` did. */
  ghost predicate SameEffects<S>(driver: Driver<S>, clock: nat, later: nat, s: S,
                                 statements: seq<Statement>, i: nat, args: Parameters)
    requires i <= |statements|
    decreases |statements| - i
  {
    i < |statements| ==>
      var effect := Effect1(driver, clock, s, statements, i, args);
      && effect == Effect1(driver, later, s, statements, i, args)
      && (effect.Done? ==> SameEffects(driver, clock + 1, later + 1, effect.state, statements, i + 1, args))
  }

  lemma {:induction false} SameRun<S>(driver: Driver<S>, clock: nat, later: nat, s: S,
                                      statements: seq<Statement>, i: nat, args: Parameters)
    requires i <= |statements| && SameEffects(driver, clock, later, s, statements, i, args)
    ensures RunFrom(driver, clock, s, statements, i, args) == RunFrom(driver, later, s, statements, i, args)
    decreases |statements| - i
  {
    if i == |statements| {
    } else {
      match Effect1(driver, clock, s, statements, i, args)
      case Failed(_) =>
      case Done(next, _, _) => SameRun(driver, clock + 1, later + 1, next, statements, i + 1, args);
    }
  }

  /** When the statements of this run do the same on both paths: they report the same results
      and make the same calls once a transaction has begun; the atomic path succeeds if and
      only if the sequential one does and begin and commit are accepted; and then both leave
      the same state. */
  lemma {:induction false} PathsAgree<S>(driver: Driver<S>, clock: nat, s: S, statements: seq<Statement>,
                                         args: Parameters)
    requires SameEffects(driver, clock, clock + 1, s, statements, 0, args)
    ensures var atomic := AtomicOutcome(driver, clock, s, statements, args);
            var sequential := SequentialOutcome(driver, clock, s, statements, args);
            && (driver.begin(clock) ==>
                  atomic.result.statements == sequential.result.statements && atomic.attempts == sequential.attempts)
            && (atomic.error == None <==>
                  sequential.error == None && driver.begin(clock) &&
                  driver.commit(clock + 1 + |statements|) == Committed)
            && (atomic.error == None ==> atomic.durable == sequential.durable && atomic.open == sequential.open)
  {
    SameRun(driver, clock, clock + 1, s, statements, 0, args);
    RunLength(driver, clock, s, statements, 0, args);
    RunLength(driver, clock + 1, s, statements, 0, args);
  }
}
