/** What a call is answered with, exactly: which work it stands for, when it is turned away,
    when it is shown for confirmation and when it is let through. */
module ReplyTheory {
  import opened Text
  import opened Splitter
  import opened SqlPlan
  import opened Preview
  import opened Execution
  import opened Operation
  import opened TypedPipeline
  import opened Service
  import opened ServiceTheory

  // ---------- the work that a call stands for ----------

  /** The statements are the trimmed raw groups of the text, a white last one aside, each as
      the parser of the source's engine classifies it. */
  predicate IsOfText(config: Config, job: Job, sql: string) {
    var groups, statements := RawGroups(sql), job.plan.statements;
    && |statements| <= |groups| <= |statements| + 1
    && (|groups| > |statements| ==> TrimSpace(groups[|statements|]) == "")
    && forall i :: 0 <= i < |statements| ==>
         && statements[i].sql == TrimSpace(groups[i])
         && config.classify(job.source.engine, TrimSpace(groups[i])) == Some(statements[i].facts)
  }

  /** The statements are those built for the request in the dialect of the source's engine. */
  predicate IsOfRequest(config: Config, job: Job, request: Request) {
    var built := Build(match job.source.engine
                       case ClickHouseEngine => ClickHouse
                       case MySQLEngine => MySQL
                       case UnsupportedEngine => MySQL, request);
    var statements := job.plan.statements;
    && built.Success? && |statements| == |built.value|
    && forall i :: 0 <= i < |statements| ==>
         && statements[i].sql == built.value[i]
         && config.classify(job.source.engine, built.value[i]) == Some(statements[i].facts)
  }

  function TypedTool(request: Request): string {
    match request
    case CreateTable(_, _) => "create_table"
    case DropTable(_) => "drop_table"
    case AddColumns(_, _) => "add_columns"
    case DropColumns(_, _) => "drop_columns"
    case ModifyColumns(_, _) => "modify_columns"
    case CreateIndex(_, _, _, _) => "create_index"
    case DropIndex(_, _) => "drop_index"
    case RenameTable(_, _) => "rename_table"
    case CopyTable(_, _, _) => "copy_table"
  }

  /** The source named in the call, its tool, its text and its parameters. */
  predicate IsOfCall(config: Config, sourceID: string, call: Call, job: Job) {
    && sourceID in config.sources && job.source == config.sources[sourceID]
    && match call
       case Query(sql, parameters) => job.tool == "query" && job.parameters == parameters && IsOfText(config, job, sql)
       case ExecuteSQL(sql, parameters) =>
         job.tool == "execute_sql" && job.parameters == parameters && IsOfText(config, job, sql)
       case Migrate(sql, parameters) =>
         job.tool == "migrate" && job.parameters == parameters && IsOfText(config, job, sql)
       case Typed(request) =>
         job.tool == TypedTool(request) && job.parameters == None && IsOfRequest(config, job, request)
       case CopyTableStructure(source, destination) =>
         job.tool == "copy_table_structure" && job.parameters == None &&
         IsOfRequest(config, job, CopyTable(source, destination, false))
  }

  lemma {:induction false} TextJob(config: Config, source: Source, sql: string, job: Job)
    requires PlanForText(config, source, sql).Success? && job.source == source
    requires job.plan.statements == PlanForText(config, source, sql).value.statements
    ensures IsOfText(config, job, sql)
  {
    AnalyzeCoversInput(AnalyzerOf(config, source).value, sql);
  }

  lemma {:induction false} RawJobIsOfCall(config: Config, sourceID: string, call: Call)
    requires (call.Query? || call.ExecuteSQL? || call.Migrate?) && JobFor(config, sourceID, call).Success?
    ensures IsOfCall(config, sourceID, call, JobFor(config, sourceID, call).value)
  {
    var job := JobFor(config, sourceID, call).value;
    assert PlanForText(config, job.source, call.sql).Success?;
    TextJob(config, job.source, call.sql, job);
  }

  lemma {:induction false} TypedJob(config: Config, source: Source, request: Request, job: Job)
    requires PlanForRequest(config, source, request).Success? && job.source == source
    requires job.plan == PlanForRequest(config, source, request).value
    ensures IsOfRequest(config, job, request)
  {
    TypedPlanIsBuilt(config, source, request);
  }

  lemma {:induction false} TypedJobIsOfCall(config: Config, sourceID: string, call: Call)
    requires (call.Typed? || call.CopyTableStructure?) && JobFor(config, sourceID, call).Success?
    ensures IsOfCall(config, sourceID, call, JobFor(config, sourceID, call).value)
  {
    var job := JobFor(config, sourceID, call).value;
    assert PlanFor(config, job.source, call) == PlanForRequest(config, job.source, RequestOf(call));
    assert WithRiskOverride(call, job.plan) == job.plan;
    TypedJob(config, job.source, RequestOf(call), job);
  }

  lemma {:induction false} JobIsOfCall(config: Config, sourceID: string, call: Call)
    requires JobFor(config, sourceID, call).Success?
    ensures IsOfCall(config, sourceID, call, JobFor(config, sourceID, call).value)
  {
    if call.Typed? || call.CopyTableStructure? {
      TypedJobIsOfCall(config, sourceID, call);
    } else {
      RawJobIsOfCall(config, sourceID, call);
    }
  }

  /** Whatever is shown, mismatched or let through is the work that the call stands for. */
  lemma {:induction false} ReplyIsOfCall(config: Config, meta: Meta, call: Call)
    ensures var reply := Handle(config, meta, call);
            !reply.Rejected? ==> IsOfCall(config, meta.sourceID, call, reply.job)
  {
    var reply := Handle(config, meta, call);
    if !reply.Rejected? {
      AuthorizeFacts(config, meta, JobFor(config, meta.sourceID, call).value);
      JobIsOfCall(config, meta.sourceID, call);
    }
  }

  /** An event that this request can have caused. */
  predicate IsCausedBy(config: Config, event: Event, request: ToolCall) {
    && IsOfCall(config, request.meta.sourceID, request.call, event.job)
    && (event.Started? ==> event.confirmed == request.meta.confirm)
  }

  lemma {:induction false} StepIsOfRequest<S>(config: Config, drivers: map<string, Driver<S>>, w: World<S>,
                                              request: ToolCall)
    ensures var next := Step(config, drivers, w, request);
            && |w.trace| <= |next.trace| <= |w.trace| + 1 && next.trace[..|w.trace|] == w.trace
            && (|next.trace| > |w.trace| ==> IsCausedBy(config, next.trace[|w.trace|], request))
            && (|next.trace| == |w.trace| <==> Handle(config, request.meta, request.call).Rejected?)
  {
    ReplyIsOfCall(config, request.meta, request.call);
  }

  lemma {:induction false} TraceGrows<S>(config: Config, drivers: map<string, Driver<S>>, w: World<S>,
                                         requests: seq<ToolCall>)
    ensures w.trace <= After(config, drivers, w, requests).trace
    decreases |requests|
  {
    if requests == [] {
    } else {
      StepIsOfRequest(config, drivers, w, requests[0]);
      TraceGrows(config, drivers, Step(config, drivers, w, requests[0]), requests[1..]);
    }
  }

  lemma {:induction false} FirstEvent<S>(config: Config, drivers: map<string, Driver<S>>, w: World<S>,
                                         request: ToolCall, later: seq<Event>, k: nat)
    requires Step(config, drivers, w, request).trace <= later
    requires |w.trace| <= k < |Step(config, drivers, w, request).trace|
    ensures IsCausedBy(config, later[k], request)
  {
    StepIsOfRequest(config, drivers, w, request);
  }

  /** Over every run: each disclosure and each start comes from a request, with its source,
      tool, text, parameters and confirmation. */
  lemma {:induction false} EventsAreOfRequests<S>(config: Config, drivers: map<string, Driver<S>>, w: World<S>,
                                                  requests: seq<ToolCall>, k: nat) returns (n: nat)
    requires |w.trace| <= k < |After(config, drivers, w, requests).trace|
    ensures n < |requests| && IsCausedBy(config, After(config, drivers, w, requests).trace[k], requests[n])
    decreases |requests|
  {
    var next, others := Step(config, drivers, w, requests[0]), requests[1..];
    var final := After(config, drivers, w, requests);
    assert final == After(config, drivers, next, others);
    if k < |next.trace| {
      TraceGrows(config, drivers, next, others);
      FirstEvent(config, drivers, w, requests[0], final.trace, k);
      n := 0;
    } else {
      var m := EventsAreOfRequests(config, drivers, next, others, k);
      n := m + 1;
      assert requests[n] == others[m];
    }
  }

  // ---------- which calls are turned away ----------

  /** The text splits into at most 50 statements and the parser takes each of them. */
  predicate IsAnalyzable(config: Config, engine: Engine, sql: string) {
    && Split(sql).Success? && |Split(sql).value| <= 50
    && forall i :: 0 <= i < |Split(sql).value| ==> config.classify(engine, Split(sql).value[i]).Some?
  }

  /** The classes of the statements of an analyzable text. */
  function KindsOf(config: Config, engine: Engine, sql: string): seq<StatementKind>
    requires IsAnalyzable(config, engine, sql)
  {
    var pieces := Split(sql).value;
    seq(|pieces|, i requires 0 <= i < |pieces| => config.classify(engine, pieces[i]).value.kind)
  }

  lemma {:induction false} TextPlanExact(config: Config, source: Source, sql: string)
    requires TrimSpace(sql) != "" && source.engine != UnsupportedEngine
    ensures PlanForText(config, source, sql).Success? <==> IsAnalyzable(config, source.engine, sql)
    ensures PlanForText(config, source, sql).Failure? ==> PlanForText(config, source, sql).error == Unsafe
    ensures PlanForText(config, source, sql).Success? ==>
              var plan, kinds := PlanForText(config, source, sql).value, KindsOf(config, source.engine, sql);
              && |plan.statements| == |kinds|
              && (plan.readOnly <==> forall i :: 0 <= i < |kinds| ==> kinds[i] == ReadOnly)
  {
    var classify := AnalyzerOf(config, source).value;
    AnalyzeExact(classify, sql);
    if IsAnalyzable(config, source.engine, sql) {
      AnalyzeCoversInput(classify, sql);
      var plan, kinds := PlanForText(config, source, sql).value, KindsOf(config, source.engine, sql);
      assert forall i :: 0 <= i < |kinds| ==> kinds[i] == plan.statements[i].facts.kind;
    }
  }

  /** The first reason, in this order, to turn a call away before the policy is asked. */
  function SourceProblem(config: Config, sourceID: string): Option<Reason> {
    if TrimSpace(sourceID) == "" then Some(InvalidInput)
    else if sourceID !in config.sources then Some(UnknownSource)
    else None
  }

  /** A raw call has work exactly when its source is known and supported, its text is not
      white and is analyzable, and the kinds fit the tool: one read for `query`, something
      else than reads for the others. Otherwise it is turned away, and for the first of
      these reasons. */
  lemma {:induction false} RawCallExact(config: Config, sourceID: string, call: Call)
    requires call.Query? || call.ExecuteSQL? || call.Migrate?
    ensures var job := JobFor(config, sourceID, call);
            if SourceProblem(config, sourceID).Some? then job == Failure(SourceProblem(config, sourceID).value)
            else
              var engine := config.sources[sourceID].engine;
              if TrimSpace(call.sql) == "" then job == Failure(InvalidInput)
              else if engine == UnsupportedEngine then job == Failure(Unsupported)
              else if !IsAnalyzable(config, engine, call.sql) then job == Failure(Unsafe)
              else
                var kinds := KindsOf(config, engine, call.sql);
                if call.Query? then
                  if kinds == [ReadOnly] then job.Success? else job == Failure(ReadOnlyRequired)
                else
                  if exists i :: 0 <= i < |kinds| && kinds[i] != ReadOnly then job.Success?
                  else job == Failure(MutationRequired)
  {
    if SourceProblem(config, sourceID).None? {
      var source := config.sources[sourceID];
      if TrimSpace(call.sql) != "" && source.engine != UnsupportedEngine {
        TextPlanExact(config, source, call.sql);
      }
    }
  }

  /** The parser takes every statement, and not all of them for reads. */
  predicate AreTaken(config: Config, engine: Engine, statements: seq<string>) {
    && (forall i :: 0 <= i < |statements| ==> config.classify(engine, statements[i]).Some?)
    && (exists i :: 0 <= i < |statements| && config.classify(engine, statements[i]).Some? &&
                    config.classify(engine, statements[i]).value.kind != ReadOnly)
  }

  lemma {:induction false} PiecesAreTaken(classify: Classifier, sql: string, pieces: seq<string>)
    requires Split(sql) == Success(pieces) && |pieces| <= 50
    ensures Analyze(classify, sql).Success? && !Analyze(classify, sql).value.readOnly <==>
            && (forall i :: 0 <= i < |pieces| ==> classify(pieces[i]).Some?)
            && (exists i :: 0 <= i < |pieces| && classify(pieces[i]).Some? &&
                            classify(pieces[i]).value.kind != ReadOnly)
  {
    AnalyzeExact(classify, sql);
    if Analyze(classify, sql).Success? {
      AnalyzeCoversInput(classify, sql);
      var plan := Analyze(classify, sql).value;
      assert forall i :: 0 <= i < |pieces| ==> classify(pieces[i]) == Some(plan.statements[i].facts);
    }
  }

  lemma {:induction false} JoinedPlanExact(config: Config, source: Source, statements: seq<string>)
    requires source.engine != UnsupportedEngine && Split(Join(statements, "; ")) == Success(statements)
    requires |statements| <= 50
    ensures var analysis := Analyze(AnalyzerOf(config, source).value, Join(statements, "; "));
            AreTaken(config, source.engine, statements) <==> analysis.Success? && !analysis.value.readOnly
  {
    PiecesAreTaken(AnalyzerOf(config, source).value, Join(statements, "; "), statements);
  }

  lemma {:induction false} BuiltPlanExact(config: Config, source: Source, request: Request)
    requires Build(DialectOf(source.engine), request).Success? && source.engine != UnsupportedEngine
    ensures var built, plan := Build(DialectOf(source.engine), request).value, PlanForRequest(config, source, request);
            && (plan.Success? <==> AreTaken(config, source.engine, built))
            && (plan.Failure? ==> plan.error == Unsafe)
  {
    BuildJoinSplit(DialectOf(source.engine), request);
    JoinedPlanExact(config, source, Build(DialectOf(source.engine), request).value);
  }

  /** A typed call has work exactly when its source is known and supported, the builder of its
      dialect takes the request, and the parser takes every statement and not all for reads. */
  lemma {:induction false} TypedCallExact(config: Config, sourceID: string, call: Call)
    requires call.Typed? || call.CopyTableStructure?
    ensures var job := JobFor(config, sourceID, call);
            if SourceProblem(config, sourceID).Some? then job == Failure(SourceProblem(config, sourceID).value)
            else
              var engine := config.sources[sourceID].engine;
              var built := Build(if engine == ClickHouseEngine then ClickHouse else MySQL, RequestOf(call));
              if built.Failure? then
                job == Failure(if built.error == UnsupportedCapability then Unsupported else InvalidInput)
              else if engine == UnsupportedEngine then job == Failure(Unsupported)
              else if AreTaken(config, engine, built.value) then job.Success?
              else job == Failure(Unsafe)
  {
    if SourceProblem(config, sourceID).None? {
      var source := config.sources[sourceID];
      if Build(DialectOf(source.engine), RequestOf(call)).Success? && source.engine != UnsupportedEngine {
        BuiltPlanExact(config, source, RequestOf(call));
      }
    }
  }

  // ---------- what is shown ----------

  /** A job can be shown exactly when every normalized statement has something besides white
      space, and the source's ID and the tool's name have. */
  lemma {:induction false} ShownExactly(hash: Hash, job: Job)
    ensures BuildPreview(hash, IntentOf(job)).Success? <==>
            && job.plan.statements != [] && TrimSpace(job.source.id) != "" && TrimSpace(job.tool) != ""
            && forall i :: 0 <= i < |job.plan.statements| ==>
                 TrimSpace(job.plan.statements[i].facts.normalizedSQL) != ""
  {
    var shown := CanonicalSQL(job.plan);
    assert forall i :: 0 <= i < |shown| ==> shown[i] == TrimSpace(job.plan.statements[i].facts.normalizedSQL);
    if "" in shown {
      var i :| 0 <= i < |shown| && shown[i] == "";
      assert TrimSpace(job.plan.statements[i].facts.normalizedSQL) == "";
    }
    assert forall i :: 0 <= i < |shown| ==> shown[i] in shown;
  }

  /** What the artifact of a job shows and what its hash covers. */
  lemma {:induction false} ArtifactShows(hash: Hash, job: Job)
    requires BuildPreview(hash, IntentOf(job)).Success?
    ensures var artifact, statements := BuildPreview(hash, IntentOf(job)).value, job.plan.statements;
            && |artifact.sql| == |statements|
            && (forall i :: 0 <= i < |statements| ==> artifact.sql[i] == TrimSpace(statements[i].facts.normalizedSQL))
            && (artifact.atomic <==>
                  job.source.atomicBatches && forall i :: 0 <= i < |statements| ==> statements[i].facts.kind == Write)
            && (artifact.risk == HighRisk <==> job.plan.risk == HighRisk || (|statements| > 1 && !artifact.atomic))
            && artifact.previewHash ==
               hash(EnvelopeText(Envelope(job.source.id, job.tool, artifact.sql,
                                          if job.parameters == None then [] else job.parameters.value,
                                          artifact.risk, artifact.atomic)))
  {
  }

  // ---------- the policy ----------

  /** A confirmation is let through exactly when it carries the hash of its own job, and
      otherwise answered with a fresh preview, in either mode. */
  lemma {:induction false} ConfirmedExactly(config: Config, meta: Meta, call: Call)
    requires meta.confirm && config.mode != UnknownMode && JobFor(config, meta.sourceID, call).Success?
    requires BuildPreview(config.hash, IntentOf(JobFor(config, meta.sourceID, call).value)).Success?
    ensures var job, reply := JobFor(config, meta.sourceID, call).value, Handle(config, meta, call);
            var artifact := BuildPreview(config.hash, IntentOf(job)).value;
            if meta.previewHash != "" && meta.previewHash == artifact.previewHash then reply == Accepted(job)
            else reply == Mismatch(artifact, job)
  {
  }

  /** In strict mode nothing is let through unconfirmed. */
  lemma {:induction false} StrictExactly(config: Config, meta: Meta, call: Call)
    requires !meta.confirm && config.mode == StrictMode && JobFor(config, meta.sourceID, call).Success?
    requires BuildPreview(config.hash, IntentOf(JobFor(config, meta.sourceID, call).value)).Success?
    ensures var job := JobFor(config, meta.sourceID, call).value;
            Handle(config, meta, call) == ConfirmationRequired(BuildPreview(config.hash, IntentOf(job)).value, job)
  {
  }

  /** Work that is not a migration: one statement, not DDL, with the WHERE it requires. */
  predicate IsMildCall(call: Call, job: Job) {
    && !call.Migrate? && |job.plan.statements| == 1
    && var facts := job.plan.statements[0].facts;
       facts.kind != DDL && (facts.requiresWhere ==> facts.hasWhereClause)
  }

  lemma {:induction false} TypedJobIsDDL(config: Config, sourceID: string, call: Call)
    requires SchemaTextIsDDL(config) && (call.Typed? || call.CopyTableStructure?)
    requires JobFor(config, sourceID, call).Success?
    ensures var job := JobFor(config, sourceID, call).value;
            job.plan.statements != [] && job.plan.statements[0].facts.kind == DDL
  {
    var job := JobFor(config, sourceID, call).value;
    TypedPlanIsBuilt(config, job.source, RequestOf(call));
    BuildJoinSplit(DialectOf(job.source.engine), RequestOf(call));
    BuildLeadsWithSchemaKeyword(DialectOf(job.source.engine), RequestOf(call));
  }

  lemma {:induction false} LowRiskExactly(config: Config, sourceID: string, call: Call)
    requires call.Typed? || call.CopyTableStructure? ==> SchemaTextIsDDL(config)
    requires JobFor(config, sourceID, call).Success?
    ensures var job := JobFor(config, sourceID, call).value;
            Bound(job).risk == LowRisk <==> IsMildCall(call, job)
  {
    var job := JobFor(config, sourceID, call).value;
    JobPlan(config, sourceID, call);
    if call.Typed? || call.CopyTableStructure? {
      TypedJobIsHighRisk(config, sourceID, call);
      TypedJobIsDDL(config, sourceID, call);
    }
  }

  /** In quick mode an unconfirmed call is let through exactly when its work is mild, and
      otherwise shown for confirmation. */
  lemma {:induction false} QuickExactly(config: Config, meta: Meta, call: Call)
    requires call.Typed? || call.CopyTableStructure? ==> SchemaTextIsDDL(config)
    requires !meta.confirm && config.mode == QuickMode
    requires JobFor(config, meta.sourceID, call).Success?
    requires BuildPreview(config.hash, IntentOf(JobFor(config, meta.sourceID, call).value)).Success?
    ensures var job, reply := JobFor(config, meta.sourceID, call).value, Handle(config, meta, call);
            if IsMildCall(call, job) then reply == Accepted(job)
            else reply == ConfirmationRequired(BuildPreview(config.hash, IntentOf(job)).value, job)
  {
    LowRiskExactly(config, meta.sourceID, call);
  }

  /** A call without work, or whose work cannot be shown, or under an unknown mode, is
      turned away. */
  lemma {:induction false} RejectedExactly(config: Config, meta: Meta, call: Call)
    ensures var job := JobFor(config, meta.sourceID, call);
            Handle(config, meta, call).Rejected? <==>
            job.Failure? || config.mode == UnknownMode || BuildPreview(config.hash, IntentOf(job.value)).Failure?
    ensures var job := JobFor(config, meta.sourceID, call);
            Handle(config, meta, call).Rejected? ==>
            Handle(config, meta, call).reason == if job.Failure? then job.error else Unsafe
  {
  }

  // ---------- what reaches the driver ----------

  /** Without a connection nothing is sent, whatever the work is. */
  lemma {:induction false} UnconnectedSendsNothing<S>(driver: Driver<S>, connection: Connection<S>, job: Job)
    requires !job.source.connected
    ensures var outcome := JobOutcome(driver, connection, job);
            && outcome.attempts == [] && outcome.clock == connection.calls && outcome.durable == connection.durable
            && outcome.error != None
  {
  }

  /** Work that is let through is done on the connection of its source: the state and the
      calls are those of a query or of a plan, and are recorded. Any other reply, or a source
      without a database, leaves every connection alone. */
  lemma {:induction false} StepExecutes<S>(config: Config, drivers: map<string, Driver<S>>, w: World<S>,
                                           request: ToolCall)
    ensures var next, reply := Step(config, drivers, w, request), Handle(config, request.meta, request.call);
            if !reply.Accepted? || reply.job.source.id !in w.connections || reply.job.source.id !in drivers then
              next.connections == w.connections
            else
              var job, id := reply.job, reply.job.source.id;
              var connection, driver := w.connections[id], drivers[id];
              var outcome := if request.call.Query? then
                  QueryOutcome(driver, connection.calls, connection.durable, job.source.connected,
                               if job.plan.statements == [] then "" else job.plan.statements[0].facts.normalizedSQL,
                               job.parameters)
                else
                  PlanOutcome(driver, connection.calls, connection.durable, job.source.connected,
                              job.source.atomicBatches, job.plan, job.parameters);
              && next.connections ==
                 w.connections[id := Connection(outcome.durable, outcome.clock, connection.attempts + outcome.attempts)]
              && next.trace == w.trace + [Started(job, request.meta.confirm, outcome.attempts)]
  {
    if Handle(config, request.meta, request.call).Accepted? {
      HandleFacts(config, request.meta, request.call);
      ReadJobs(config, request.meta.sourceID, request.call);
    }
  }

  /** A query that is let through is one driver call, with its text and its parameters. */
  lemma {:induction false} QueryIsSent<S>(config: Config, meta: Meta, call: Call, driver: Driver<S>,
                                          connection: Connection<S>)
    requires call.Query? && Handle(config, meta, call).Accepted? && Handle(config, meta, call).job.source.connected
    ensures var job := Handle(config, meta, call).job;
            var outcome := JobOutcome(driver, connection, job);
            && |job.plan.statements| == 1
            && var sent := (job.plan.statements[0].facts.normalizedSQL,
                            if call.parameters == None then [] else call.parameters.value);
               var answer := driver.query(connection.calls, connection.durable, sent.0, sent.1);
            && outcome.attempts == [sent] && outcome.durable == answer.left
            && (outcome.error == None <==> answer.ok)
  {
    HandleFacts(config, meta, call);
    ReadJobs(config, meta.sourceID, call);
  }
}
